/** The custom pointer (components/custom-cursor.tsx).

    A circle that follows the mouse, modelled by its square bounding box. It
    has one of three sizes, chosen by what the pointer hovers over: links,
    then buttons, then anything else. It is hidden
    when the pointer leaves the page and nothing is rendered before the
    component has mounted. The hovered element is given as the list of tag
    kinds from the element itself up to the root, which is what
    `Element.closest` searches. */
module Cursor {
  import opened Wrappers

  datatype Tag = Anchor | ButtonTag | OtherTag

  datatype Variant = DefaultCursor | LinkCursor | ButtonCursor

  datatype CursorState = CursorState(mounted: bool, x: real, y: real, visible: bool, variant: Variant)

  /** `path[0]` is the event target, later entries its ancestors. */
  datatype Event =
    | Mount
    | MouseMove(clientX: real, clientY: real, path: seq<Tag>)
    | MouseLeave
    | MouseEnter

  /** Before mounting: origin, hidden, default variant. */
  const Init := CursorState(false, 0.0, 0.0, false, DefaultCursor)

  /** `target.tagName === T || target.closest(t)`: the element or an ancestor
      has the tag. */
  predicate Within(path: seq<Tag>, tag: Tag)
    requires |path| >= 1
  {
    path[0] == tag || tag in path
  }

  /** The variant for a hovered element: a link wins over a button, even when
      the link sits inside a button or the other way round. */
  function Classify(path: seq<Tag>): (v: Variant)
    requires |path| >= 1
    ensures v == LinkCursor <==> Anchor in path
    ensures v == ButtonCursor <==> Anchor !in path && ButtonTag in path
    ensures v == DefaultCursor <==> Anchor !in path && ButtonTag !in path
  {
    if Within(path, Anchor) then LinkCursor
    else if Within(path, ButtonTag) then ButtonCursor
    else DefaultCursor
  }

  /** Side length of the cursor's box, per variant. */
  function Size(v: Variant): real
  {
    match v
    case DefaultCursor => 32.0
    case LinkCursor => 40.0
    case ButtonCursor => 48.0
  }

  /** The literal offset each variant subtracts from the pointer position. */
  function Offset(v: Variant): real
  {
    match v
    case DefaultCursor => 16.0
    case LinkCursor => 20.0
    case ButtonCursor => 24.0
  }

  datatype Box = Box(left: real, top: real, size: real)

  /** The animation target of a variant. Every variant's box is centred on
      the pointer. */
  function Placement(v: Variant, x: real, y: real): (b: Box)
    ensures b.size == Size(v)
    ensures b.left + b.size / 2.0 == x && b.top + b.size / 2.0 == y
  {
    Box(x - Offset(v), y - Offset(v), Size(v))
  }

  /** The boxes grow from default to link to button. */
  lemma SizesIncrease()
    ensures Size(DefaultCursor) < Size(LinkCursor) < Size(ButtonCursor)
    ensures forall v :: Offset(v) * 2.0 == Size(v)
  {
  }

  /** Events take effect only once the listeners are attached, which happens
      when the component mounts. */
  function Step(c: CursorState, e: Event): (r: CursorState)
    requires e.MouseMove? ==> |e.path| >= 1
    ensures e.Mount? ==> r == c.(mounted := true)
    ensures !c.mounted && !e.Mount? ==> r == c
    ensures c.mounted && e.MouseMove? ==> r.visible && r.x == e.clientX && r.y == e.clientY
                                          && r.variant == Classify(e.path)
    ensures c.mounted && e.MouseLeave? ==> !r.visible
    ensures c.mounted && e.MouseEnter? ==> r.visible
    ensures !e.MouseMove? ==> r.variant == c.variant && r.x == c.x && r.y == c.y
    ensures r.mounted == (c.mounted || e.Mount?)
  {
    match e
    case Mount => c.(mounted := true)
    case MouseMove(cx, cy, path) =>
      if !c.mounted then c
      else c.(x := cx, y := cy, visible := true, variant := Classify(path))
    case MouseLeave => if !c.mounted then c else c.(visible := false)
    case MouseEnter => if !c.mounted then c else c.(visible := true)
  }

  /** What is drawn: nothing before mounting, otherwise the variant's box
      at full or zero opacity. */
  function Render(c: CursorState): (r: Option<(Box, real)>)
    ensures r.None? <==> !c.mounted
    ensures r.Some? ==> r.value.0 == Placement(c.variant, c.x, c.y)
    ensures r.Some? ==> (r.value.1 == 1.0 <==> c.visible) && (r.value.1 == 0.0 <==> !c.visible)
  {
    if !c.mounted then None
    else Some((Placement(c.variant, c.x, c.y), if c.visible then 1.0 else 0.0))
  }

  lemma NothingBeforeMount()
    ensures Render(Init).None?
  {
  }

  predicate MovesOk(events: seq<Event>)
  {
    forall k :: 0 <= k < |events| ==> (events[k].MouseMove? ==> |events[k].path| >= 1)
  }

  function Run(c: CursorState, events: seq<Event>): CursorState
    requires MovesOk(events)
    decreases |events|
  {
    if |events| == 0 then c else Run(Step(c, events[0]), events[1..])
  }

  /** Without a `Mount`, no event has any effect and nothing is ever drawn. */
  lemma {:induction false} UnmountedIgnoresEvents(c: CursorState, events: seq<Event>)
    requires !c.mounted && MovesOk(events)
    requires forall k :: 0 <= k < |events| ==> !events[k].Mount?
    ensures Run(c, events) == c
    decreases |events|
  {
    if |events| > 0 {
      RestMovesOk(events);
      UnmountedIgnoresEvents(Step(c, events[0]), events[1..]);
    }
  }

  /** After a mouse move the cursor is drawn, visible and centred on the
      event's client position. */
  lemma MoveShowsCursorAtPointer(c: CursorState, cx: real, cy: real, path: seq<Tag>)
    requires c.mounted && |path| >= 1
    ensures var r := Render(Step(c, MouseMove(cx, cy, path)));
      && r.Some? && r.value.1 == 1.0
      && r.value.0.left + r.value.0.size / 2.0 == cx
      && r.value.0.top + r.value.0.size / 2.0 == cy
  {
  }

  lemma RestMovesOk(events: seq<Event>)
    requires |events| > 0 && MovesOk(events)
    ensures MovesOk(events[1..])
  {
    forall k | 0 <= k < |events| - 1
      ensures events[1..][k].MouseMove? ==> |events[1..][k].path| >= 1
    {
      assert events[1..][k] == events[k + 1];
    }
  }
}
