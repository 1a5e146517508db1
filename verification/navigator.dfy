/** Section navigation of the home page (app/page.tsx).

    The page is a column of full-screen sections. Its state is the index of the
    highlighted section and a scroll lock that is held for one second after every
    programmatic scroll. Wheel turns that reach the page container, arrow keys,
    clicks on the navigation dots,
    the lock's timeout and the intersection observer each move the state one step.
    `n` is the number of sections found in the document; it may be 0. */
module Navigator {

  /** The highlighted section and whether a smooth scroll holds the lock. */
  datatype Nav = Nav(active: int, scrolling: bool)

  /** One input of the page. `Dot(i)` is a click on the i-th navigation dot,
      `Release` the lock's timeout firing, and `Observed(isIntersecting, index)`
      one intersection-observer entry whose target was looked up among the
      sections, `index` being that lookup's result (-1 when not found). */
  datatype Event =
    | Wheel(deltaY: real)
    | Key(key: string)
    | Dot(index: int)
    | Release
    | Observed(isIntersecting: bool, index: int)

  /** One entry delivered to the intersection observer's callback. */
  datatype Entry<T> = Entry(target: T, isIntersecting: bool)

  /** The state before any event: the first section, lock released. */
  const Init := Nav(0, false)

  function Min(a: int, b: int): int { if a <= b then a else b }

  function Max(a: int, b: int): int { if a >= b then a else b }

  /** The highlighted index names an existing section. */
  predicate InRange(s: Nav, n: nat)
  {
    0 <= s.active < n
  }

  lemma InitInRange(n: nat)
    requires n >= 1
    ensures InRange(Init, n) && Init.active == 0 && !Init.scrolling
  {
  }

  /** `scrollToSection(index)`: refused while the lock is held or when there is
      no section at `index`; otherwise highlights `index` and takes the lock. */
  function ScrollTo(s: Nav, n: nat, index: int): (r: Nav)
    ensures r == s <==> s.scrolling || index < 0 || n <= index
    ensures r != s ==> r.active == index && r.scrolling && !s.scrolling
    ensures InRange(s, n) ==> InRange(r, n)
  {
    if s.scrolling || index < 0 || n <= index then s else Nav(index, true)
  }

  /** The timeout armed by a successful scroll releases the lock. */
  function OnRelease(s: Nav): (r: Nav)
    ensures !r.scrolling && r.active == s.active
  {
    s.(scrolling := false)
  }

  /** Wheel direction: down for a positive delta, up otherwise (a zero delta
      counts as up). */
  function Direction(deltaY: real): int
  {
    if deltaY > 0.0 then 1 else -1
  }

  /** The section a wheel turn aims at, clamped into `[0, n-1]`. */
  function WheelTarget(s: Nav, n: nat, deltaY: real): int
  {
    Min(Max(0, s.active + Direction(deltaY)), n - 1)
  }

  function OnWheel(s: Nav, n: nat, deltaY: real): (r: Nav)
    ensures s.scrolling ==> r == s
    ensures r != s ==> r == Nav(WheelTarget(s, n, deltaY), true) && r.active != s.active
    ensures (!s.scrolling && InRange(s, n) && WheelTarget(s, n, deltaY) != s.active)
              ==> r == Nav(WheelTarget(s, n, deltaY), true)
    ensures InRange(s, n) ==> InRange(r, n)
  {
    if s.scrolling then s
    else
      var next := WheelTarget(s, n, deltaY);
      if next != s.active then ScrollTo(s, n, next) else s
  }

  predicate IsForwardKey(key: string)
  {
    key == "ArrowDown" || key == "ArrowRight"
  }

  predicate IsBackwardKey(key: string)
  {
    key == "ArrowUp" || key == "ArrowLeft"
  }

  /** Arrow keys move one section forward or back, stopping at either end.
      Unlike the wheel, a key at the boundary still calls `scrollToSection`,
      so it re-takes the lock without moving. */
  function OnKey(s: Nav, n: nat, key: string): (r: Nav)
    ensures s.scrolling ==> r == s
    ensures !IsForwardKey(key) && !IsBackwardKey(key) ==> r == s
    ensures (!s.scrolling && InRange(s, n) && IsForwardKey(key))
              ==> r == Nav(Min(s.active + 1, n - 1), true)
    ensures (!s.scrolling && InRange(s, n) && IsBackwardKey(key))
              ==> r == Nav(Max(s.active - 1, 0), true)
    ensures InRange(s, n) ==> InRange(r, n)
  {
    if s.scrolling then s
    else if IsForwardKey(key) then ScrollTo(s, n, Min(s.active + 1, n - 1))
    else if IsBackwardKey(key) then ScrollTo(s, n, Max(s.active - 1, 0))
    else s
  }

  /** One observer entry: an intersecting section becomes the highlighted one,
      unless the lock is held or the target is not a known section. The lock
      is never touched. */
  function OnObservedIndex(s: Nav, isIntersecting: bool, index: int): (r: Nav)
    ensures r.scrolling == s.scrolling
    ensures r != s ==> isIntersecting && !s.scrolling && index != -1 && r.active == index
    ensures isIntersecting && !s.scrolling && index != -1 ==> r.active == index
  {
    if isIntersecting && !s.scrolling && index != -1 then s.(active := index) else s
  }

  /** `Array.prototype.findIndex` with identity comparison. */
  function FindIndex<T(==)>(sections: seq<T>, target: T): (r: int)
    ensures -1 <= r < |sections|
    ensures r == -1 <==> target !in sections
    ensures r >= 0 ==> sections[r] == target && target !in sections[..r]
  {
    if |sections| == 0 then -1
    else if sections[0] == target then 0
    else
      var k := FindIndex(sections[1..], target);
      assert sections[1..][..if k >= 0 then k else 0] == sections[1..1 + (if k >= 0 then k else 0)];
      if k == -1 then -1 else k + 1
  }

  /** The observer callback: entries are handled in order, so the last
      intersecting entry that names a section wins. */
  function OnEntries<T(==)>(s: Nav, sections: seq<T>, entries: seq<Entry<T>>): (r: Nav)
    decreases |entries|
  {
    if |entries| == 0 then s
    else
      var last := entries[|entries| - 1];
      OnObservedIndex(OnEntries(s, sections, entries[..|entries| - 1]),
                      last.isIntersecting, FindIndex(sections, last.target))
  }

  /** Some entry is intersecting and names a known section. */
  predicate AnyHit<T(==)>(sections: seq<T>, entries: seq<Entry<T>>)
  {
    exists k :: 0 <= k < |entries| && entries[k].isIntersecting && entries[k].target in sections
  }

  lemma {:induction false} OnEntriesEffect<T>(s: Nav, sections: seq<T>, entries: seq<Entry<T>>)
    ensures OnEntries(s, sections, entries).scrolling == s.scrolling
    ensures s.scrolling || !AnyHit(sections, entries) ==> OnEntries(s, sections, entries) == s
    ensures InRange(s, |sections|) ==> InRange(OnEntries(s, sections, entries), |sections|)
    ensures (!s.scrolling && |entries| > 0 && entries[|entries| - 1].isIntersecting
               && entries[|entries| - 1].target in sections)
              ==> OnEntries(s, sections, entries).active
                  == FindIndex(sections, entries[|entries| - 1].target)
    decreases |entries|
  {
    if |entries| > 0 {
      var init := entries[..|entries| - 1];
      OnEntriesEffect(s, sections, init);
      if !AnyHit(sections, entries) {
        assert !AnyHit(sections, init) by {
          forall k | 0 <= k < |init|
            ensures !(init[k].isIntersecting && init[k].target in sections)
          {
            assert init[k] == entries[k];
          }
        }
      }
    }
  }

  /** Entries after the last hit change nothing: the callback leaves the
      section of the last intersecting entry that names a known section,
      wherever that entry stands in the batch. */
  lemma {:induction false} LastHitWins<T>(s: Nav, sections: seq<T>, entries: seq<Entry<T>>, k: nat)
    requires !s.scrolling && k < |entries|
    requires entries[k].isIntersecting && entries[k].target in sections
    requires forall m :: k < m < |entries| ==> !(entries[m].isIntersecting && entries[m].target in sections)
    ensures OnEntries(s, sections, entries).active == FindIndex(sections, entries[k].target)
    decreases |entries|
  {
    var init := entries[..|entries| - 1];
    OnEntriesEffect(s, sections, entries);
    if k < |entries| - 1 {
      OnEntriesEffect(s, sections, init);
      assert init[k] == entries[k];
      forall m | k < m < |init|
        ensures !(init[m].isIntersecting && init[m].target in sections)
      {
        assert init[m] == entries[m];
      }
      LastHitWins(s, sections, init, k);
      var last := entries[|entries| - 1];
      assert !(last.isIntersecting && last.target in sections);
      assert OnEntries(s, sections, entries)
        == OnObservedIndex(OnEntries(s, sections, init), last.isIntersecting, FindIndex(sections, last.target));
    }
  }

  /** One event of any kind. */
  function Step(s: Nav, n: nat, e: Event): Nav
  {
    match e
    case Wheel(deltaY) => OnWheel(s, n, deltaY)
    case Key(key) => OnKey(s, n, key)
    case Dot(index) => ScrollTo(s, n, index)
    case Release => OnRelease(s)
    case Observed(isIntersecting, index) => OnObservedIndex(s, isIntersecting, index)
  }

  /** The observer only reports lookups of real sections or -1. */
  predicate WellFormed(e: Event, n: nat)
  {
    e.Observed? ==> -1 <= e.index < n
  }

  lemma StepInRange(s: Nav, n: nat, e: Event)
    requires InRange(s, n) && WellFormed(e, n)
    ensures InRange(Step(s, n, e), n)
  {
  }

  /** While the lock is held, only the timeout changes anything. */
  lemma LockedIgnoresInput(s: Nav, n: nat, e: Event)
    requires s.scrolling && !e.Release?
    ensures Step(s, n, e) == s
  {
  }

  function Run(s: Nav, n: nat, events: seq<Event>): Nav
    decreases |events|
  {
    if |events| == 0 then s else Run(Step(s, n, events[0]), n, events[1..])
  }

  /** From the initial state, any sequence of well-formed events keeps the
      highlighted index on an existing section. */
  lemma {:induction false} RunInRange(s: Nav, n: nat, events: seq<Event>)
    requires InRange(s, n)
    requires forall k :: 0 <= k < |events| ==> WellFormed(events[k], n)
    ensures InRange(Run(s, n, events), n)
    decreases |events|
  {
    if |events| > 0 {
      StepInRange(s, n, events[0]);
      RunInRange(Step(s, n, events[0]), n, events[1..]);
    }
  }

  lemma ReachableInRange(n: nat, events: seq<Event>)
    requires n >= 1
    requires forall k :: 0 <= k < |events| ==> WellFormed(events[k], n)
    ensures InRange(Run(Init, n, events), n)
  {
    RunInRange(Init, n, events);
  }

  /** A locked page stays exactly as it is until a `Release` arrives. */
  lemma {:induction false} LockedRunUnchanged(s: Nav, n: nat, events: seq<Event>)
    requires s.scrolling
    requires forall k :: 0 <= k < |events| ==> !events[k].Release?
    ensures Run(s, n, events) == s
    decreases |events|
  {
    if |events| > 0 {
      LockedIgnoresInput(s, n, events[0]);
      LockedRunUnchanged(s, n, events[1..]);
    }
  }

  /** A wheel turn from a valid unlocked state moves at most one section, in
      the direction of the delta, and takes the lock exactly when it moves. */
  lemma WheelMovesOneSection(s: Nav, n: nat, deltaY: real)
    requires InRange(s, n) && !s.scrolling
    ensures var r := OnWheel(s, n, deltaY);
      && -1 <= r.active - s.active <= 1
      && (deltaY > 0.0 ==> r.active == Min(s.active + 1, n - 1))
      && (deltaY <= 0.0 ==> r.active == Max(s.active - 1, 0))
      && (r.scrolling <==> r.active != s.active)
  {
  }

  /** Forward and backward keys undo each other away from the ends. */
  lemma KeysAreInverse(s: Nav, n: nat, forward: string, backward: string)
    requires InRange(s, n) && !s.scrolling && s.active + 1 < n
    requires IsForwardKey(forward) && IsBackwardKey(backward)
    ensures OnKey(OnRelease(OnKey(s, n, forward)), n, backward) == Nav(s.active, true)
  {
  }
}
