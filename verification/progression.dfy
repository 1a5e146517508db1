/** The "From Linguistics to Logic" progression grid (components/about-me.tsx).

    Four items sit in a two-by-two grid along a square path drawn clockwise
    from the top-left cell. An item's cell comes from words in its position
    string, and its entrance delay from how far along the path it sits. */
module Progression {

  datatype Item = Item(name: string, position: string, order: nat, pathProgress: real)

  const Items: seq<Item> := [
    Item("Linguistics", "top-left", 1, 0.125),
    Item("Code", "top-right", 2, 0.375),
    Item("Programs", "bottom-right", 3, 0.625),
    Item("Applications", "bottom-left", 4, 0.875)
  ]

  const TotalDuration: real := 2.5
  /** Duration of the path-drawing animation. */
  const PathDuration: real := TotalDuration * 1.32

  /** `sub` occurs in `s` starting at offset `k`. */
  predicate OccursAt(s: string, sub: string, k: nat)
  {
    k + |sub| <= |s| && s[k..k + |sub|] == sub
  }

  /** `s.includes(sub)`: `sub` occurs in `s` at some offset. */
  predicate Includes(s: string, sub: string)
  {
    exists k :: 0 <= k <= |s| - |sub| && OccursAt(s, sub, k)
  }

  /** Every character of an occurring word is a character of `s`; so a
      word with a character `s` lacks does not occur in it. */
  lemma OccurrenceHasCharacters(s: string, sub: string, c: char)
    ensures Includes(s, sub) && c in sub ==> c in s
  {
    if Includes(s, sub) && c in sub {
      var k :| 0 <= k <= |s| - |sub| && OccursAt(s, sub, k);
      var m :| 0 <= m < |sub| && sub[m] == c;
      assert s[k..k + |sub|][m] == s[k + m];
    }
  }

  /** Grid column: 1 for a position mentioning "left", else 2. */
  function Column(position: string): (c: nat)
    ensures c == 1 <==> Includes(position, "left")
    ensures c == 1 || c == 2
  {
    if Includes(position, "left") then 1 else 2
  }

  /** Grid row: 1 for a position mentioning "top", else 2. */
  function Row(position: string): (r: nat)
    ensures r == 1 <==> Includes(position, "top")
    ensures r == 1 || r == 2
  {
    if Includes(position, "top") then 1 else 2
  }

  function Cell(it: Item): (nat, nat)
  {
    (Row(it.position), Column(it.position))
  }

  /** The cells the four items land in: clockwise from the top left. */
  lemma ItemCells()
    ensures Cell(Items[0]) == (1, 1)
    ensures Cell(Items[1]) == (1, 2)
    ensures Cell(Items[2]) == (2, 2)
    ensures Cell(Items[3]) == (2, 1)
  {
    TopLeft();
    TopRight();
    BottomRight();
    BottomLeft();
  }

  lemma TopLeft()
    ensures Row("top-left") == 1 && Column("top-left") == 1
  {
    assert OccursAt("top-left", "top", 0);
    assert OccursAt("top-left", "left", 4);
  }

  lemma TopRight()
    ensures Row("top-right") == 1 && Column("top-right") == 2
  {
    assert OccursAt("top-right", "top", 0);
    OccurrenceHasCharacters("top-right", "left", 'l');
  }

  lemma BottomRight()
    ensures Row("bottom-right") == 2 && Column("bottom-right") == 2
  {
    OccurrenceHasCharacters("bottom-right", "top", 'p');
    OccurrenceHasCharacters("bottom-right", "left", 'l');
  }

  lemma BottomLeft()
    ensures Row("bottom-left") == 2 && Column("bottom-left") == 1
  {
    OccurrenceHasCharacters("bottom-left", "top", 'p');
    assert OccursAt("bottom-left", "left", 7);
  }

  /** The four items occupy four different cells. */
  lemma CellsDistinct()
    ensures forall i, j :: 0 <= i < j < |Items| ==> Cell(Items[i]) != Cell(Items[j])
  {
    ItemCells();
    forall i, j | 0 <= i < j < |Items|
      ensures Cell(Items[i]) != Cell(Items[j])
    {
      if i == 0 {
        if j == 1 {} else if j == 2 {} else {}
      } else if i == 1 {
        if j == 2 {} else {}
      }
    }
  }

  /** Walking the items in order follows the drawn square path: each item's
      cell is a grid neighbour of the previous one, and the last closes the
      loop back to the first. */
  lemma PathVisitsCellsInOrder()
    ensures Adjacent(Cell(Items[0]), Cell(Items[1]))
    ensures Adjacent(Cell(Items[1]), Cell(Items[2]))
    ensures Adjacent(Cell(Items[2]), Cell(Items[3]))
    ensures Adjacent(Cell(Items[3]), Cell(Items[0]))
  {
    ItemCells();
  }

  predicate Adjacent(a: (nat, nat), b: (nat, nat))
  {
    (a.0 == b.0 && a.1 != b.1) || (a.0 != b.0 && a.1 == b.1)
  }

  /** Entrance delays: the item, then its icon 0.1 s later, then its label
      0.2 s after the item. */
  function ItemDelay(it: Item): real
  {
    it.pathProgress * TotalDuration
  }

  function IconDelay(it: Item): (d: real)
    ensures d > ItemDelay(it) && d - ItemDelay(it) == 0.1
  {
    ItemDelay(it) + 0.1
  }

  function LabelDelay(it: Item): (d: real)
    ensures d > IconDelay(it) && d - ItemDelay(it) == 0.2
  {
    ItemDelay(it) + 0.2
  }

  /** Each item sits at the middle of its quarter of the path, so it appears
      as the path reaches it. */
  lemma ItemsAtQuarterMidpoints()
    ensures forall k :: 0 <= k < |Items| ==>
      Items[k].pathProgress == ((Items[k].order as real) - 0.5) / 4.0
  {
  }

  /** Items appear in order; within each item the box, its icon and its label
      appear in that order, all of them while the path is still being drawn. */
  lemma DelaysOrdered()
    ensures forall i, j :: 0 <= i < |Items| && 0 <= j < |Items| && Items[i].order < Items[j].order
              ==> ItemDelay(Items[i]) < ItemDelay(Items[j])
    ensures forall k :: 0 <= k < |Items| ==>
      0.0 < ItemDelay(Items[k]) < IconDelay(Items[k]) < LabelDelay(Items[k]) < PathDuration
  {
    ItemsAtQuarterMidpoints();
  }

  /** The same holds for any item placed on the path: progress within [0, 1)
      gives a delay before the path animation ends. */
  lemma DelayWithinPath(it: Item)
    requires 0.0 <= it.pathProgress < 1.0
    ensures 0.0 <= ItemDelay(it) < PathDuration
  {
  }
}
