/** The decorative particle field (components/particle-background.tsx).

    A canvas holds free particles that drift, bounce off the edges and are
    pushed away by the pointer, and orbiting particles that circle one of four
    fixed centres. Every frame updates each particle, then draws a line between
    every pair closer than a fixed distance. Random draws, square roots, sines
    and cosines are inputs of the model; numbers are reals, so IEEE-754
    rounding is not modelled. */
module Particles {
  import opened Wrappers

  /** Parameters of a circular orbit: radius, angular speed, current angle
      and centre. */
  datatype Orbit = Orbit(radius: real, speed: real, angle: real, centerX: real, centerY: real)

  /** One particle. `orbit` is present exactly for orbiting particles, which
      the source marks with `isOrbiting` and five defined orbit fields. */
  datatype Particle = Particle(
    x: real, y: real, size: real,
    speedX: real, speedY: real,
    opacity: real,
    orbit: Option<Orbit>)

  const MaxParticles: nat := 100
  /** Pairs closer than this are joined by a line. */
  const LinkDistance: real := 120.0
  /** The pointer pushes particles closer than this. */
  const RepelRadius: real := 100.0
  /** Factor applied to a speed component at a wall. */
  const Bounce: real := -0.9
  /** Per-frame speed damping of free particles. */
  const Damping: real := 0.99

  /** A draw of `Math.random()`. */
  predicate Unit(r: real) { 0.0 <= r < 1.0 }

  // ---------------------------------------------------------------------
  // Initialisation

  /** `particleCount`: one particle per 10 pixels of canvas width, at most 100. */
  function ParticleCount(width: nat): (c: nat)
    ensures c <= MaxParticles
    ensures c * 10 <= width
    ensures c == MaxParticles || width < (c + 1) * 10
  {
    if width / 10 <= MaxParticles then width / 10 else MaxParticles
  }

  /** Iterations of `for (i = 0; i < count * 0.6; i++)`: the naturals below
      `0.6 * count`, i.e. `ceil(3 * count / 5)`. */
  function FreeCount(count: nat): nat
  {
    (3 * count + 4) / 5
  }

  /** Iterations of `for (i = 0; i < count * 0.4; i++)`: `ceil(2 * count / 5)`. */
  function OrbitCount(count: nat): nat
  {
    (2 * count + 4) / 5
  }

  /** The loop over free particles runs for exactly the naturals below
      `0.6 * count`, and the orbiting loop for those below `0.4 * count`. */
  lemma LoopCounts(count: nat, i: nat)
    ensures i < FreeCount(count) <==> (i as real) < 0.6 * (count as real)
    ensures i < OrbitCount(count) <==> (i as real) < 0.4 * (count as real)
  {
    assert i < FreeCount(count) <==> 5 * i < 3 * count;
    assert i < OrbitCount(count) <==> 5 * i < 2 * count;
    assert (5 * i < 3 * count) <==> 5.0 * (i as real) < 3.0 * (count as real);
    assert (5 * i < 2 * count) <==> 5.0 * (i as real) < 2.0 * (count as real);
  }

  /** Both loops round up, so the field holds `count` particles when `count`
      is a multiple of 5 and one more otherwise; never more than 100. */
  lemma TotalParticles(width: nat)
    ensures var c := ParticleCount(width);
      && FreeCount(c) + OrbitCount(c) == (if c % 5 == 0 then c else c + 1)
      && FreeCount(c) + OrbitCount(c) <= MaxParticles
  {
    var c := ParticleCount(width);
    var q, m := c / 5, c % 5;
    assert c == 5 * q + m;
    assert FreeCount(c) == 3 * q + (3 * m + 4) / 5;
    assert OrbitCount(c) == 2 * q + (2 * m + 4) / 5;
  }

  /** Well-formed particle: positive size and an opacity within [0, 1]. */
  predicate ParticleOk(p: Particle)
  {
    p.size > 0.0 && 0.0 <= p.opacity <= 1.0
  }

  /** A free particle drawn from six random numbers: uniform position on the
      canvas, size in [0.5, 2.5), speeds in [-0.4, 0.4), opacity in [0.2, 0.8). */
  function MakeFree(width: nat, height: nat, rx: real, ry: real, rSize: real,
                    rSpeedX: real, rSpeedY: real, rOpacity: real): (p: Particle)
    requires Unit(rx) && Unit(ry) && Unit(rSize) && Unit(rSpeedX) && Unit(rSpeedY) && Unit(rOpacity)
    ensures ParticleOk(p) && p.orbit.None?
    ensures 0.0 <= p.x <= width as real && 0.0 <= p.y <= height as real
    ensures 0.5 <= p.size < 2.5 && 0.2 <= p.opacity < 0.8
    ensures -0.4 <= p.speedX < 0.4 && -0.4 <= p.speedY < 0.4
  {
    var x := Scaled(rx, width as real);
    var y := Scaled(ry, height as real);
    Particle(x, y, rSize * 2.0 + 0.5,
             (rSpeedX - 0.5) * 0.8, (rSpeedY - 0.5) * 0.8,
             rOpacity * 0.6 + 0.2, None)
  }

  /** A uniform draw over `[0, w)`: `Math.random() * w`. */
  function Scaled(r: real, w: real): (v: real)
    requires Unit(r) && w >= 0.0
    ensures 0.0 <= v <= w
  {
    assert r * w <= 1.0 * w;
    r * w
  }

  /** Index of the orbit centre picked by `Math.floor(r * 4)`. */
  function CenterIndex(r: real): (k: int)
    requires Unit(r)
    ensures 0 <= k < 4
    ensures k as real <= r * 4.0 < k as real + 1.0
  {
    (r * 4.0).Floor
  }

  /** The four orbit centres, at the quarter points of the canvas. */
  function Center(width: nat, height: nat, k: int): (c: (real, real))
    requires 0 <= k < 4
  {
    var xs := if k % 2 == 0 then 0.25 else 0.75;
    var ys := if k < 2 then 0.25 else 0.75;
    (width as real * xs, height as real * ys)
  }

  /** Angular speed `(r * 0.01 + 0.01) * (rSign > 0.1 ? 0.1 : -0.1)`. */
  function OrbitSpeed(rSpeed: real, rSign: real): (w: real)
    requires Unit(rSpeed) && Unit(rSign)
    ensures rSign > 0.1 ==> 0.001 <= w < 0.002
    ensures rSign <= 0.1 ==> -0.002 < w <= -0.001
  {
    (rSpeed * 0.01 + 0.01) * (if rSign > 0.1 then 0.1 else -0.1)
  }

  /** `cosA` and `sinA` are the cosine and sine of one angle. */
  predicate OnUnitCircle(cosA: real, sinA: real)
  {
    cosA * cosA + sinA * sinA == 1.0
  }

  /** An orbiting particle lies on the circle of its orbit. */
  predicate OnOrbit(p: Particle)
  {
    p.orbit.Some? &&
    var o := p.orbit.value;
    (p.x - o.centerX) * (p.x - o.centerX) + (p.y - o.centerY) * (p.y - o.centerY)
      == o.radius * o.radius
  }

  /** The point at cosine `c` and sine `s` of radius `r` around `(cx, cy)` is
      at distance `r` from the centre. */
  lemma CircleFromUnit(cx: real, cy: real, r: real, c: real, s: real)
    ensures OnUnitCircle(c, s) ==>
      (cx + c * r - cx) * (cx + c * r - cx) + (cy + s * r - cy) * (cy + s * r - cy) == r * r
  {
    assert cx + c * r - cx == c * r;
    assert cy + s * r - cy == s * r;
    assert (c * r) * (c * r) + (s * r) * (s * r) == (c * c + s * s) * (r * r);
  }

  /** An orbiting particle. `angle` is the drawn starting angle and `cosA`,
      `sinA` its cosine and sine. */
  function MakeOrbiting(width: nat, height: nat, rCenter: real, rRadius: real,
                        rSpeed: real, rSign: real, angle: real, cosA: real, sinA: real,
                        rSize: real, rOpacity: real): (p: Particle)
    requires Unit(rCenter) && Unit(rRadius) && Unit(rSpeed) && Unit(rSign)
    requires Unit(rSize) && Unit(rOpacity)
    ensures ParticleOk(p) && p.orbit.Some?
    ensures 40.0 <= p.orbit.value.radius < 220.0
    ensures p.orbit.value.centerX in {width as real * 0.25, width as real * 0.75}
    ensures p.orbit.value.centerY in {height as real * 0.25, height as real * 0.75}
    ensures p.speedX == 0.0 && p.speedY == 0.0
    ensures 1.0 <= p.size < 3.5 && 0.3 <= p.opacity < 1.0
    ensures p.x == p.orbit.value.centerX + cosA * p.orbit.value.radius
    ensures p.y == p.orbit.value.centerY + sinA * p.orbit.value.radius
    ensures OnUnitCircle(cosA, sinA) ==> OnOrbit(p)
  {
    var c := Center(width, height, CenterIndex(rCenter));
    var radius := rRadius * 180.0 + 40.0;
    CircleFromUnit(c.0, c.1, radius, cosA, sinA);
    Particle(c.0 + cosA * radius, c.1 + sinA * radius, rSize * 2.5 + 1.0, 0.0, 0.0,
             rOpacity * 0.7 + 0.3,
             Some(Orbit(radius, OrbitSpeed(rSpeed, rSign), angle, c.0, c.1)))
  }

  // ---------------------------------------------------------------------
  // Per-frame update

  /** The non-deterministic inputs of one particle's update: the pointer
      distance `dist` (the square root the source computes after the move),
      two jitter draws, the flicker draw and the new-opacity draw, and the
      cosine and sine of an orbiting particle's new angle. */
  datatype Draws = Draws(dist: real, jitterX: real, jitterY: real,
                         flicker: real, newOpacity: real, cosA: real, sinA: real)

  predicate DrawsOk(d: Draws)
  {
    d.dist >= 0.0 && Unit(d.jitterX) && Unit(d.jitterY) && Unit(d.flicker)
    && Unit(d.newOpacity)
  }

  /** The pointer repels only when both its coordinates are positive (it has
      been seen over the canvas) and it is closer than the repel radius. */
  predicate Repels(mouseX: real, mouseY: real, dist: real)
  {
    mouseX > 0.0 && mouseY > 0.0 && dist < RepelRadius
  }

  /** Repulsion strength: falls linearly from 0.2 at distance 0 to 0 at the
      repel radius. */
  function Force(dist: real): (f: real)
    requires 0.0 <= dist < RepelRadius
    ensures 0.0 < f <= 0.2
    ensures f == 0.2 <==> dist == 0.0
  {
    (RepelRadius - dist) / 500.0
  }

  /** A nearer pointer pushes harder. */
  lemma ForceDecreasing(d1: real, d2: real)
    requires 0.0 <= d1 < d2 < RepelRadius
    ensures Force(d2) < Force(d1)
  {
  }

  /** One speed component after the pointer's push and jitter. */
  function Pushed(speed: real, delta: real, force: real, jitter: real): real
  {
    speed - delta * force + (jitter - 0.5) * 0.2
  }

  /** Boundary rule for one axis: outside `[0, limit]` the position is put
      back on the nearer edge and the speed reversed and scaled by 0.9. */
  function Reflect(pos: real, speed: real, limit: real): (r: (real, real))
    requires limit >= 0.0
    ensures 0.0 <= r.0 <= limit
    ensures 0.0 <= pos <= limit ==> r == (pos, speed)
    ensures pos < 0.0 ==> r == (0.0, Bounce * speed)
    ensures pos > limit ==> r == (limit, Bounce * speed)
  {
    if pos < 0.0 || pos > limit then
      ((if pos < 0.0 then 0.0 else limit), speed * Bounce)
    else (pos, speed)
  }

  /** The clamp into `[lo, hi]` that the boundary rule amounts to for positions. */
  function Clamp(v: real, lo: real, hi: real): real
    requires lo <= hi
  {
    if v < lo then lo else if v > hi then hi else v
  }

  /** Speeds after the pointer's push, before walls and damping. Apart from a
      jitter of less than 0.1 per axis, the push points away from the pointer
      on each axis and is at most 0.2 times the offset to the pointer. */
  function PushedSpeeds(p: Particle, x: real, y: real, mouseX: real, mouseY: real, d: Draws): (s: (real, real))
    requires DrawsOk(d)
    ensures !Repels(mouseX, mouseY, d.dist) ==> s == (p.speedX, p.speedY)
    ensures Repels(mouseX, mouseY, d.dist) ==>
      var jx, jy := (d.jitterX - 0.5) * 0.2, (d.jitterY - 0.5) * 0.2;
      && -0.1 <= jx < 0.1 && -0.1 <= jy < 0.1
      && AwayFrom(s.0 - p.speedX - jx, mouseX - x)
      && AwayFrom(s.1 - p.speedY - jy, mouseY - y)
    ensures Repels(mouseX, mouseY, d.dist) ==>
      var jx, jy := (d.jitterX - 0.5) * 0.2, (d.jitterY - 0.5) * 0.2;
      && s.0 - p.speedX - jx == -(mouseX - x) * Force(d.dist)
      && s.1 - p.speedY - jy == -(mouseY - y) * Force(d.dist)
  {
    if Repels(mouseX, mouseY, d.dist) then
      var f := Force(d.dist);
      var sx, sy := Pushed(p.speedX, mouseX - x, f, d.jitterX), Pushed(p.speedY, mouseY - y, f, d.jitterY);
      PushAway(sx - p.speedX - (d.jitterX - 0.5) * 0.2, mouseX - x, f);
      PushAway(sy - p.speedY - (d.jitterY - 0.5) * 0.2, mouseY - y, f);
      (sx, sy)
    else (p.speedX, p.speedY)
  }

  /** A push `push` on an axis where the pointer lies `delta` ahead points the
      other way (strictly, unless the pointer is level with the particle) and
      is at most 0.2 times as large. */
  predicate AwayFrom(push: real, delta: real)
  {
    push * delta <= 0.0 && (delta != 0.0 ==> push * delta < 0.0)
    && push * push <= 0.04 * (delta * delta)
  }

  /** Subtracting `delta * force` with a force in (0, 0.2] is a push away. */
  lemma PushAway(push: real, delta: real, force: real)
    requires 0.0 < force <= 0.2 && push == -(delta * force)
    ensures AwayFrom(push, delta)
  {
    assert -(delta * force) * delta == -(force * (delta * delta));
    assert delta * delta >= 0.0;
    assert force * (delta * delta) >= 0.0;
    if delta > 0.0 {
      MulPos(delta, force);
      MulPos(delta * force, delta);
    } else if delta < 0.0 {
      MulPos(-delta, force);
      MulPos((-delta) * force, -delta);
      assert ((-delta) * force) * (-delta) == (delta * force) * delta;
    }
    assert -(delta * force) * -(delta * force) == (force * force) * (delta * delta);
    assert force * force <= 0.04 by {
      assert force * force <= force * 0.2;
    }
    assert (force * force) * (delta * delta) <= 0.04 * (delta * delta);
  }

  lemma MulPos(a: real, b: real)
    requires a > 0.0 && b > 0.0
    ensures a * b > 0.0
  {
  }

  /** The free-particle branch of `updateParticles`, without the opacity
      flicker: move by the speed, take the pointer's push, reflect at the
      walls, damp. */
  function MoveFree(p: Particle, width: nat, height: nat, mouseX: real, mouseY: real, d: Draws): (q: Particle)
    requires DrawsOk(d)
    ensures 0.0 <= q.x <= width as real && 0.0 <= q.y <= height as real
    ensures q.x == Clamp(p.x + p.speedX, 0.0, width as real)
    ensures q.y == Clamp(p.y + p.speedY, 0.0, height as real)
    ensures var s := PushedSpeeds(p, p.x + p.speedX, p.y + p.speedY, mouseX, mouseY, d);
      && q.speedX == Damping * (if 0.0 <= p.x + p.speedX <= width as real then s.0 else Bounce * s.0)
      && q.speedY == Damping * (if 0.0 <= p.y + p.speedY <= height as real then s.1 else Bounce * s.1)
    ensures q.size == p.size && q.opacity == p.opacity && q.orbit == p.orbit
  {
    var x, y := p.x + p.speedX, p.y + p.speedY;
    var s := PushedSpeeds(p, x, y, mouseX, mouseY, d);
    var rx := Reflect(x, s.0, width as real);
    var ry := Reflect(y, s.1, height as real);
    p.(x := rx.0, y := ry.0, speedX := rx.1 * Damping, speedY := ry.1 * Damping)
  }

  /** The orbiting branch: advance the angle by the angular speed and place the
      particle on its circle. Speeds, walls and the pointer play no part. */
  function MoveOrbiting(p: Particle, cosA: real, sinA: real): (q: Particle)
    requires p.orbit.Some?
    ensures q.orbit.Some? && q.orbit.value == p.orbit.value.(angle := p.orbit.value.angle + p.orbit.value.speed)
    ensures q.speedX == p.speedX && q.speedY == p.speedY
    ensures q.size == p.size && q.opacity == p.opacity
    ensures q.x - q.orbit.value.centerX == cosA * q.orbit.value.radius
    ensures q.y - q.orbit.value.centerY == sinA * q.orbit.value.radius
    ensures OnUnitCircle(cosA, sinA) ==> OnOrbit(q)
  {
    var o := p.orbit.value;
    var o' := o.(angle := o.angle + o.speed);
    CircleFromUnit(o'.centerX, o'.centerY, o'.radius, cosA, sinA);
    p.(x := o'.centerX + cosA * o'.radius, y := o'.centerY + sinA * o'.radius, orbit := Some(o'))
  }

  /** Random opacity reset: one frame in a hundred on average. */
  function Flicker(opacity: real, flicker: real, newOpacity: real): (o: real)
    requires Unit(flicker) && Unit(newOpacity)
    ensures flicker < 0.01 ==> 0.3 <= o < 0.8
    ensures flicker >= 0.01 ==> o == opacity
  {
    if flicker < 0.01 then newOpacity * 0.5 + 0.3 else opacity
  }

  /** One particle's update for one frame. */
  function Update(p: Particle, width: nat, height: nat, mouseX: real, mouseY: real, d: Draws): (q: Particle)
    requires DrawsOk(d)
    ensures q.size == p.size && q.orbit.Some? == p.orbit.Some?
    ensures p.orbit.Some? ==> q.speedX == p.speedX && q.speedY == p.speedY
    ensures p.orbit.None? ==> 0.0 <= q.x <= width as real && 0.0 <= q.y <= height as real
    ensures ParticleOk(p) ==> ParticleOk(q)
    ensures p.orbit.Some? && OnUnitCircle(d.cosA, d.sinA) ==> OnOrbit(q)
  {
    var moved := if p.orbit.Some? then MoveOrbiting(p, d.cosA, d.sinA)
                 else MoveFree(p, width, height, mouseX, mouseY, d);
    moved.(opacity := Flicker(p.opacity, d.flicker, d.newOpacity))
  }

  /** Every frame updates each particle with its own draws. The field keeps its
      size and the kind, size and well-formedness of each particle; free
      particles end on the canvas, orbiting ones keep their speeds and, given
      a true cosine and sine, lie on their circle. */
  function UpdateAll(ps: seq<Particle>, width: nat, height: nat, mouseX: real, mouseY: real,
                     draws: seq<Draws>): (qs: seq<Particle>)
    requires |draws| == |ps|
    requires forall k :: 0 <= k < |draws| ==> DrawsOk(draws[k])
    ensures |qs| == |ps|
    ensures forall k :: 0 <= k < |ps| ==>
      && qs[k].orbit.Some? == ps[k].orbit.Some?
      && qs[k].size == ps[k].size
      && (ParticleOk(ps[k]) ==> ParticleOk(qs[k]))
    ensures forall k :: 0 <= k < |ps| && ps[k].orbit.None? ==>
      0.0 <= qs[k].x <= width as real && 0.0 <= qs[k].y <= height as real
    ensures forall k :: 0 <= k < |ps| && ps[k].orbit.Some? ==>
      && qs[k].speedX == ps[k].speedX && qs[k].speedY == ps[k].speedY
      && (OnUnitCircle(draws[k].cosA, draws[k].sinA) ==> OnOrbit(qs[k]))
  {
    seq(|ps|, k requires 0 <= k < |ps| => Update(ps[k], width, height, mouseX, mouseY, draws[k]))
  }

  // ---------------------------------------------------------------------
  // Connections

  /** Line opacity for a pair at distance `dist`: `(1 - dist / 120) * 0.5`. */
  function Alpha(dist: real): real
  {
    (1.0 - dist / LinkDistance) * 0.5
  }

  /** A line is drawn exactly for pairs closer than the link distance, and
      its alpha lies in (0, 0.5]. */
  function LinkAlpha(dist: real): (r: Option<real>)
    requires dist >= 0.0
    ensures r.Some? <==> dist < LinkDistance
    ensures r.Some? ==> 0.0 < r.value <= 0.5 && r.value == Alpha(dist)
  {
    if dist < LinkDistance then Some(Alpha(dist)) else None
  }

  /** Closer pairs get more opaque lines. */
  lemma AlphaDecreasing(d1: real, d2: real)
    requires 0.0 <= d1 < d2
    ensures Alpha(d2) < Alpha(d1)
  {
  }

  /** One drawn line between particles `i` and `j`. */
  datatype Link = Link(i: nat, j: nat, alpha: real)

  /** `dist[i][j]` is the distance between particles `i` and `j`. */
  predicate DistanceTable(dist: seq<seq<real>>)
  {
    forall i :: 0 <= i < |dist| ==> |dist[i]| == |dist|
  }

  predicate ValidLink(dist: seq<seq<real>>, l: Link)
    requires DistanceTable(dist)
  {
    l.i < l.j < |dist| && dist[l.i][l.j] < LinkDistance && l.alpha == Alpha(dist[l.i][l.j])
  }

  /** Lexicographic order on the (i, j) pairs, the order the loops visit them. */
  predicate Before(a: Link, i: nat, j: nat)
  {
    a.i < i || (a.i == i && a.j < j)
  }

  /** The line pass of `drawParticles`: visits each pair `i < j` once, in
      order, and keeps those closer than the link distance. */
  method Links(dist: seq<seq<real>>) returns (links: seq<Link>)
    requires DistanceTable(dist)
    ensures forall k :: 0 <= k < |links| ==> ValidLink(dist, links[k])
    ensures forall i, j :: 0 <= i < j < |dist| && dist[i][j] < LinkDistance
              ==> Link(i, j, Alpha(dist[i][j])) in links
    ensures forall k :: 0 <= k < |links| - 1 ==> Before(links[k], links[k + 1].i, links[k + 1].j)
  {
    var n := |dist|;
    links := [];
    var i := 0;
    while i < n
      invariant 0 <= i <= n
      invariant forall k :: 0 <= k < |links| ==> ValidLink(dist, links[k]) && links[k].i < i
      invariant forall k :: 0 <= k < |links| - 1 ==> Before(links[k], links[k + 1].i, links[k + 1].j)
      invariant forall a, b :: 0 <= a < i && a < b < n && dist[a][b] < LinkDistance
                  ==> Link(a, b, Alpha(dist[a][b])) in links
    {
      var j := i + 1;
      while j < n
        invariant i + 1 <= j <= n
        invariant forall k :: 0 <= k < |links| ==> ValidLink(dist, links[k]) && Before(links[k], i, j)
        invariant forall k :: 0 <= k < |links| - 1 ==> Before(links[k], links[k + 1].i, links[k + 1].j)
        invariant forall a, b :: 0 <= a < i && a < b < n && dist[a][b] < LinkDistance
                    ==> Link(a, b, Alpha(dist[a][b])) in links
        invariant forall b :: i < b < j && dist[i][b] < LinkDistance
                    ==> Link(i, b, Alpha(dist[i][b])) in links
      {
        if dist[i][j] < LinkDistance {
          links := links + [Link(i, j, Alpha(dist[i][j]))];
        }
        j := j + 1;
      }
      i := i + 1;
    }
  }
}
