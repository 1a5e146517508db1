# agr.dev interaction logic in Dafny

A model of the deterministic logic behind an animated single-page portfolio
site. Each piece is written as an immutable state and pure step functions:

- **Section navigation** (`Navigator`, app/page.tsx): the highlighted section and a
  one-second scroll lock. Wheel turns over the page container, arrow keys,
  navigation-dot clicks, the lock's timeout and intersection-observer entries are
  events of one state machine over `n` sections.
- **Typing effect** (`Typewriter`, app/not-found.tsx): a 50 ms interval that reveals
  ever longer prefixes of the not-found message and then stops.
- **Timeline scrolling** (`Timeline`, components/experience.tsx): button and wheel
  scroll targets, capped animation progress, the ease-in-out cubic curve and the
  per-frame `scrollLeft`.
- **Particle field** (`Particles`, components/particle-background.tsx): particle
  counts, particle creation, the free and orbiting update rules, pointer repulsion,
  wall reflection, damping, opacity flicker, and the line pass between close pairs.
- **Custom pointer** (`Cursor`, components/custom-cursor.tsx): link/button/default
  classification, the centred box of each variant (drawn as a circle), visibility
  and mounting.
- **Philosophy tabs** (`Tabs`, components/philosophy.tsx): one `activeTab` string
  driving button, panel and code-highlight flags.
- **Progression grid** (`Progression`, components/about-me.tsx): grid cells from
  position strings and entrance delays from path progress.

`Wrappers` holds the `Option` type used for "nothing happens" results.

Random draws, square roots, sines and cosines, and timestamps are inputs of the
model. Numbers are Dafny `real`s, so IEEE-754 rounding is ignored throughout.

Behaviour worth knowing, all as the code is written:

- A wheel turn with `deltaY == 0` counts as "up" on the page
  (app/page.tsx:52). On the timeline the same delta is ignored
  (components/experience.tsx:99).
- An arrow key at the first or last section still calls `scrollToSection` on the
  current index. So it takes the lock without moving. The wheel handler checks
  `next != active` first and does not (`Navigator.OnKey`).
- The typing interval's first tick shows `substring(0, 0)`, the empty string. The text
  grows by one character per tick from the second tick on. The interval is cleared
  on tick `|fullText| + 1` (76 ticks for the page's 75-character message).
- The creation loops run `ceil(0.6·count)` and `ceil(0.4·count)` times. The field
  therefore holds `count` particles when `count` is a multiple of 5 and `count + 1`
  otherwise. It never holds more than 100.
- Particles are created once, when the component mounts. The resize listener only
  resizes the canvas (components/particle-background.tsx:34-40 and 225-228). The particle
  array is not rebuilt on resize; the model follows the code.

## Model

| member | source | states |
|---|---|---|
| Navigator.InitInRange | app/page.tsx:17-18 | The page starts on section 0 with the lock released, which is a valid section whenever one exists. |
| Navigator.ScrollTo | app/page.tsx:32-45 | `scrollToSection(i)` changes nothing exactly when the lock is held or no section exists at `i` (including `i = -1`). Otherwise it highlights `i` and takes the lock. It never leaves the valid range. |
| Navigator.OnRelease | app/page.tsx:42-44 | The timeout releases the lock and leaves the highlighted section unchanged. |
| Navigator.OnWheel | app/page.tsx:47-58 | Locked: no change. Otherwise the target is `min(max(0, active ± 1), n - 1)`, with +1 exactly for a positive delta. A change happens only when the target differs from the current section, and it takes the lock. |
| Navigator.WheelMovesOneSection | app/page.tsx:52-57 | From a valid unlocked state a wheel turn moves at most one section, forward exactly for a positive delta, and holds the lock exactly when it moved. |
| Navigator.OnKey | app/page.tsx:73-85 | Locked or non-arrow keys: no change. ArrowDown/ArrowRight go to `min(active + 1, n - 1)` and ArrowUp/ArrowLeft to `max(active - 1, 0)`, taking the lock. |
| Navigator.KeysAreInverse | app/page.tsx:76-84 | Away from the last section, a forward key, the timeout and a backward key return to the starting section. |
| Navigator.OnObservedIndex | app/page.tsx:97-101 | An observer entry changes the highlighted section only if it is intersecting, the lock is off and its index is not -1. It then sets exactly that index and never touches the lock. |
| Navigator.FindIndex | app/page.tsx:98 | The lookup returns -1 exactly when the target is not a section, and otherwise the first position holding it. |
| Navigator.OnEntriesEffect | app/page.tsx:94-104 | One observer callback never changes the lock. It changes nothing while locked or when no entry hits a section, keeps the index valid, and the last entry decides when it hits. |
| Navigator.LastHitWins | app/page.tsx:94-104 | Unlocked, the callback highlights the section of the last entry that is intersecting and names a known section, wherever it stands in the batch. Later misses do not undo it. |
| Navigator.StepInRange | app/page.tsx:50-101 | Every kind of event keeps the highlighted index within `[0, n-1]`. |
| Navigator.LockedIgnoresInput | app/page.tsx:33-74 | While the lock is held, every event except the timeout leaves the state unchanged. |
| Navigator.RunInRange | app/page.tsx:46-117 | Any sequence of events keeps a valid highlighted index valid. |
| Navigator.ReachableInRange | app/page.tsx:17-117 | Every state reachable from the initial one, with at least one section, highlights an existing section. |
| Navigator.LockedRunUnchanged | app/page.tsx:33-44 | A locked page stays exactly as it is until the timeout arrives, whatever else happens. |
| Typewriter.Substring | app/not-found.tsx:15 | `substring(0, i)` is a prefix of the text, of length `i` when `i` is within it, and the whole text beyond it. |
| Typewriter.Tick | app/not-found.tsx:14-18 | A running tick shows the first `i` characters and increments `i`. It stays scheduled exactly while the new `i` is at most the text length. A cleared interval changes nothing. |
| Typewriter.TicksFromStart | app/not-found.tsx:9-18 | After `k` ticks from the empty start the counter is `k`, the screen shows the first `k - 1` characters, and the interval runs exactly while `k <= |fullText|`. |
| Typewriter.TextIsPrefix | app/not-found.tsx:15-16 | The text on screen is always a prefix of the message. |
| Typewriter.OneMoreCharacterPerTick | app/not-found.tsx:15-16 | From the second tick on each tick reveals exactly one more character. The first tick shows the empty text. |
| Typewriter.StopsWithFullText | app/not-found.tsx:17 | The interval is cleared on tick `|fullText| + 1` and not earlier, and the full message is then on screen. |
| Typewriter.StoppedStaysStopped | app/not-found.tsx:17-20 | Once cleared, further ticks change nothing. |
| Typewriter.TypeOut | app/not-found.tsx:12-21 | Running the interval to completion shows the whole message after exactly `|fullText| + 1` ticks. |
| Typewriter.PageMessageTicks | app/not-found.tsx:10-18 | The page's own message is complete after 76 ticks, when the interval is cleared. |
| Timeline.ButtonTarget | components/experience.tsx:81-89 | No timeline: nothing. Otherwise the left button aims 350 below the current scroll and the right button 350 above it. |
| Timeline.WheelTarget | components/experience.tsx:91-106 | No timeline or a zero delta: nothing. Otherwise the target is 150 away from the current scroll, above it exactly for a positive delta. |
| Timeline.Progress | components/experience.tsx:64-66 | Progress is exactly elapsed/800 up to 800 ms, and 1 from then on. It never exceeds 1, reaches 1 exactly once 800 ms have passed, and is non-negative for non-negative elapsed time. |
| Timeline.EaseFixedPoints | components/experience.tsx:60-62 | The curve maps 0, 1/2 and 1 to themselves. |
| Timeline.EaseContinuousAtHalf | components/experience.tsx:60-62 | Both branches agree at 1/2, and on [0, 1] the curve stays within three times the distance from 1/2, so it is continuous there. |
| Timeline.EaseSymmetric | components/experience.tsx:60-62 | The curve is point-symmetric: `Ease(1 - t) = 1 - Ease(t)`. |
| Timeline.EaseRange | components/experience.tsx:60-62 | The curve maps [0, 1] into [0, 1]. |
| Timeline.EaseMonotone | components/experience.tsx:60-62 | The curve is monotone on [0, 1]. |
| Timeline.AnimateFrame | components/experience.tsx:64-76 | Each frame puts `scrollLeft` at start + change × the eased progress. Another frame is requested exactly while less than 800 ms have passed. The last frame puts `scrollLeft` on the target, and every frame with non-negative elapsed time lies between the start and the target. |
| Timeline.AnimationHalfway | components/experience.tsx:60-75 | At 400 ms the animation is still running and `scrollLeft` is exactly midway between start and target. |
| Timeline.InterpolateFacts | components/experience.tsx:57-70 | `start + change * eased` equals the target at eased progress 1 and lies between start and target for eased progress in [0, 1]. |
| Timeline.FramesApproachTarget | components/experience.tsx:64-75 | Later frames are never further from the target than earlier ones. |
| Timeline.ButtonsAreInverse | components/experience.tsx:81-89 | Pressing left then right, or right then left, aims back at the starting scroll position. |
| Timeline.WheelTurnsAreInverse | components/experience.tsx:95-106 | A wheel turn followed by one of the opposite sign aims back at the starting scroll position. |
| Timeline.ButtonScrollEndsOneStepAway | components/experience.tsx:64-89 | Once a button's animation has run for 800 ms it stops with `scrollLeft` exactly 350 to the pressed side of where it started. |
| Timeline.WheelScrollEndsOneStepAway | components/experience.tsx:64-106 | Once a wheel turn's animation has run for 800 ms it stops with `scrollLeft` exactly 150 from where it started, in the turn's direction. |
| Particles.ParticleCount | components/particle-background.tsx:51 | The count is `floor(width / 10)` capped at 100: never above 100, and one per 10 pixels below the cap. |
| Particles.LoopCounts | components/particle-background.tsx:60-72 | The free loop runs for exactly the naturals below `0.6·count`, the orbiting loop for those below `0.4·count`. |
| Particles.TotalParticles | components/particle-background.tsx:50-94 | The field holds `count` particles when `count` is a multiple of 5, otherwise one more, and never more than 100. |
| Particles.MakeFree | components/particle-background.tsx:61-69 | A free particle starts on the canvas with size in [0.5, 2.5), speeds in [-0.4, 0.4) and opacity in [0.2, 0.8). |
| Particles.CenterIndex | components/particle-background.tsx:73 | The drawn centre index is one of the four centres. |
| Particles.OrbitSpeed | components/particle-background.tsx:76 | The angular speed has magnitude in [0.001, 0.002) and is negative exactly when the sign draw is at most 0.1. |
| Particles.MakeOrbiting | components/particle-background.tsx:72-94 | An orbiting particle starts around a quarter-point centre, at cosine times radius and sine times radius from it. It lies exactly on its circle whenever the cosine and sine belong to one angle. Its radius is in [40, 220), its speeds are zero, its size is in [1, 3.5) and its opacity is in [0.3, 1). |
| Particles.Force | components/particle-background.tsx:191 | Within the repel radius the force `(100 - d)/500` lies in (0, 0.2], and is 0.2 exactly at distance 0. |
| Particles.ForceDecreasing | components/particle-background.tsx:190-191 | A nearer pointer pushes harder. |
| Particles.PushedSpeeds | components/particle-background.tsx:185-197 | Unless both pointer coordinates are positive and the pointer is within 100, the speeds are untouched. Otherwise each axis changes by minus its offset to the pointer times the force, plus a jitter below 0.1. So the push points strictly away from the pointer whenever the offset is non-zero, and is at most 0.2 times that offset. |
| Particles.Reflect | components/particle-background.tsx:200-208 | An axis outside `[0, limit]` is put back on the nearer edge and its speed is multiplied by -0.9. An axis inside is untouched. |
| Particles.MoveFree | components/particle-background.tsx:179-211 | After a free update the position is the moved position clamped to the canvas. Each speed is the pushed speed, times -0.9 when its axis left the canvas, then times 0.99. Size, opacity and orbit are unchanged. |
| Particles.MoveOrbiting | components/particle-background.tsx:167-177 | An orbiting particle advances its angle by its angular speed and is placed at cosine and sine times radius from its centre, so it lies exactly on its circle for a true cosine and sine. Its speeds, size and opacity are untouched, and pointer and walls play no part. |
| Particles.Flicker | components/particle-background.tsx:213-215 | With a flicker draw below 0.01 the new opacity is in [0.3, 0.8). Otherwise it is unchanged. |
| Particles.Update | components/particle-background.tsx:166-216 | One frame keeps size and kind, leaves orbiting particles' speeds alone, keeps free particles on the canvas and preserves well-formedness. An orbiting particle given a true cosine and sine lies on its circle. |
| Particles.UpdateAll | components/particle-background.tsx:165-217 | A frame keeps the number of particles and each particle's kind, size and well-formedness. Free particles end on the canvas. Orbiting particles keep their speeds and, given a true cosine and sine, lie on their circle. |
| Particles.LinkAlpha | components/particle-background.tsx:113-115 | A line is drawn exactly for pairs closer than 120, with alpha `(1 - d/120)·0.5` in (0, 0.5]. |
| Particles.AlphaDecreasing | components/particle-background.tsx:114-115 | Closer pairs get more opaque lines. |
| Particles.Links | components/particle-background.tsx:104-123 | The line pass yields only pairs `i < j` closer than 120 with the right alpha, yields every such pair, and yields them in the loops' lexicographic order. |
| Cursor.Classify | components/custom-cursor.tsx:19-27 | "link" exactly when the target or an ancestor is an anchor, even inside a button. Otherwise "button" exactly when the target or an ancestor is a button. Otherwise "default". |
| Cursor.Placement | components/custom-cursor.tsx:49-74 | Every variant's box (the cursor is drawn as a circle inside it) has that variant's size and is centred on the pointer. |
| Cursor.SizesIncrease | components/custom-cursor.tsx:50-73 | Sizes grow strictly from default (32) to link (40) to button (48), and each offset is half its size. |
| Cursor.Step | components/custom-cursor.tsx:12-47 | Before mounting no event has an effect. A move sets the position to the client coordinates, shows the cursor and reclassifies. Leaving hides it and entering shows it. Only moves change position or variant. |
| Cursor.Render | components/custom-cursor.tsx:76-85 | Nothing is drawn before mounting. Afterwards the variant's box is drawn at opacity 1 exactly when visible and 0 exactly when hidden. |
| Cursor.NothingBeforeMount | components/custom-cursor.tsx:7-76 | The initial state renders nothing. |
| Cursor.UnmountedIgnoresEvents | components/custom-cursor.tsx:12-47 | Without a mount, any sequence of events leaves the state unchanged. |
| Cursor.MoveShowsCursorAtPointer | components/custom-cursor.tsx:14-17 | After a move the cursor is drawn, fully opaque, centred on the event's client position. |
| Tabs.Click | components/philosophy.tsx:64-87 | A click makes its own button active and no other. |
| Tabs.ClickIdempotent | components/philosophy.tsx:68-86 | Repeating a click changes nothing. |
| Tabs.AfterClicks | components/philosophy.tsx:12-86 | With no clicks the state is "syntax". Otherwise it is the id of the last tab clicked. |
| Tabs.IdInjective | components/philosophy.tsx:64-87 | The four tab ids are pairwise distinct. |
| Tabs.AtMostOneActive | components/philosophy.tsx:64-87 | At most one button is active, and exactly one exactly when the state is one of the four ids. |
| Tabs.ReachableHasOneActive | components/philosophy.tsx:12-260 | After any clicks exactly one button is active, and a panel is visible exactly when its button is active. |
| Tabs.HighlightsOf | components/philosophy.tsx:272-276 | Each highlight flag is set exactly when its tab's button is active. |
| Tabs.OneHighlight | components/philosophy.tsx:272-276 | At most one highlight flag is set, and exactly one exactly when the state is one of the four ids. |
| Progression.Column | components/about-me.tsx:104-120 | Column 1 exactly when the position contains "left", else column 2. |
| Progression.Row | components/about-me.tsx:105-120 | Row 1 exactly when the position contains "top", else row 2. |
| Progression.ItemCells | components/about-me.tsx:11-40 | The four items land top-left, top-right, bottom-right and bottom-left. |
| Progression.CellsDistinct | components/about-me.tsx:103-120 | The four items occupy four pairwise distinct cells. |
| Progression.PathVisitsCellsInOrder | components/about-me.tsx:87-98 | Consecutive items, and the last with the first, are grid neighbours, so the items follow the drawn square path. |
| Progression.ItemsAtQuarterMidpoints | components/about-me.tsx:11-40 | Each item's path progress is the midpoint of its quarter of the path, `(order - 1/2)/4`. |
| Progression.DelaysOrdered | components/about-me.tsx:42-145 | Item delays strictly increase with `order` and are positive. Within each item the box, the icon (0.1 s later) and the label (0.2 s later) appear in that order, all before the 3.3 s path animation ends. |
| Progression.DelayWithinPath | components/about-me.tsx:42-107 | Any path progress in [0, 1) gives a delay within the path animation. |

## Left out

- JSX, Tailwind classes and framer-motion transitions, including the cursor's spring
  and the background colours of the variants: these are declarative presentation.
- Canvas drawing: clearing, strokes, radial gradients, shadows, the pointer ring and
  the hexadecimal fill colour built from a particle's opacity. These are
  graphics-API side effects.
- `Math.random`, `Math.sqrt`, `Math.cos`/`Math.sin`, `Math.PI` and `performance.now`
  are inputs. Random draws are reals in [0, 1), distances are non-negative reals,
  and the elapsed time of a frame is a real.
- Particles.MoveFree: the pointer distance is an input and is not tied to the moved
  position by `sqrt(dx² + dy²)`. The contract holds for any non-negative distance.
- Particles.MakeOrbiting: the starting angle and its cosine and sine are independent
  inputs. The model does not tie them to the angle, so "on its circle" is promised only
  when the cosine and sine satisfy `cos² + sin² = 1`.
- Particles.MoveOrbiting: the same holds for the cosine and sine of the advanced
  angle, which are per-frame inputs.
- Timeline.AnimateFrame: the between-start-and-target bound is stated only for
  non-negative elapsed time. A frame timestamp earlier than the start time gives
  negative progress, which the model computes but does not bound.
- Timers and event wiring: `setTimeout`, `setInterval`, `requestAnimationFrame`,
  listener registration and removal, and the IntersectionObserver itself are events
  or ticks of the model. Its one-second and 50 ms delays are not represented.
- Browser behaviour: `scrollIntoView`, the browser's clamping of `scrollLeft`,
  `preventDefault`/`stopPropagation`, and the DOM lookups of `closest()` and
  `querySelectorAll`. The section count and the hovered element's ancestor tags are
  inputs instead.
- Navigator.LockedIgnoresInput: the model applies each state update before the next
  event arrives. In the page, the handlers read the `isScrolling` and `activeSection`
  captured at the last render, and the effects re-register them only after a
  re-render (app/page.tsx:70, 89, 117). An event that arrives between
  `setIsScrolling(true)` and that re-render still sees the lock released. A dot click
  right after a wheel turn is one example. Navigator.LockedRunUnchanged holds only for
  the same sequential reading.
- A `Wheel` event of the navigator is a wheel turn that reaches the page container.
  The timeline's own wheel handler stops propagation (components/experience.tsx:96-97),
  so a turn over the timeline scrolls the timeline and never moves the section.
- Timeline.AnimateFrame: one animation is modelled in isolation. Each button press or
  wheel turn starts a new frame loop (components/experience.tsx:51-79) without
  cancelling one in flight, and both loops write `scrollLeft` until they finish.
  Overlapping animations therefore need not end at either target, and the observed
  position need not be monotone. Timeline.FramesApproachTarget,
  Timeline.ButtonScrollEndsOneStepAway and Timeline.WheelScrollEndsOneStepAway
  likewise describe one animation.
- Typewriter.Substring: JavaScript's `substring` and `length` count UTF-16 code units,
  while a Dafny string is a sequence of Unicode scalar values. The two agree on text
  within the Basic Multilingual Plane, such as the page's ASCII message. For text
  outside it, the tick counts of Typewriter.TicksFromStart and
  Typewriter.StopsWithFullText differ from the page's.
- A timeline element that disappears in the middle of an animation. The source then
  skips the write but keeps requesting frames.
- The pointer's canvas-relative coordinates (`clientX - rect.left`). The model takes
  the canvas-relative pointer position directly; the initial position (0, 0) means
  no repulsion.
- Canvas resizing. The model takes the canvas width and height as inputs.
- The hero's scroll-progress hook and the console greeting.
- components/stack-grid.tsx, components/projects.tsx, components/contact.tsx and
  components/hero.tsx: fixed content rendered as-is, with no state to model.
- IEEE-754 rounding: all arithmetic is on exact reals.
