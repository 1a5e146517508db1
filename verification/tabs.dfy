/** The tab switcher of the philosophy section (components/philosophy.tsx).

    One string, `activeTab`, decides which of the four buttons is lit, which
    content panel is shown and which spans of the annotated code sample are
    coloured. */
module Tabs {

  datatype Tab = Syntax | Semantics | Pragmatics | Philosophy

  /** The string id each button sets and each panel is keyed by. */
  function Id(t: Tab): string
  {
    match t
    case Syntax => "syntax"
    case Semantics => "semantics"
    case Pragmatics => "pragmatics"
    case Philosophy => "philosophy"
  }

  /** The state the section mounts with. */
  const InitialTab: string := "syntax"

  /** Distinct tabs have distinct ids. */
  lemma IdInjective(a: Tab, b: Tab)
    ensures Id(a) == Id(b) ==> a == b
  {
  }

  predicate IsId(s: string)
  {
    exists t: Tab :: Id(t) == s
  }

  /** A button's `active` flag. */
  predicate ButtonActive(activeTab: string, t: Tab)
  {
    activeTab == Id(t)
  }

  /** `AnimatedTabContent`: a panel is shown exactly when its key is the
      active tab. */
  predicate PanelVisible(tab: string, activeTab: string)
  {
    activeTab == tab
  }

  /** A click on a button selects that button's tab, whatever was selected. */
  function Click(activeTab: string, t: Tab): (r: string)
    ensures ButtonActive(r, t)
    ensures forall u :: ButtonActive(r, u) <==> u == t
  {
    IdsDistinct();
    Id(t)
  }

  lemma IdsDistinct()
    ensures forall a: Tab, b: Tab :: Id(a) == Id(b) ==> a == b
  {
    forall a: Tab, b: Tab
      ensures Id(a) == Id(b) ==> a == b
    {
      IdInjective(a, b);
    }
  }

  /** Clicking the same button again changes nothing. */
  lemma ClickIdempotent(activeTab: string, t: Tab)
    ensures Click(Click(activeTab, t), t) == Click(activeTab, t)
  {
  }

  /** The state after a series of clicks: the last click decides. */
  function AfterClicks(clicks: seq<Tab>): (r: string)
    ensures |clicks| == 0 ==> r == InitialTab
    ensures |clicks| > 0 ==> r == Id(clicks[|clicks| - 1])
  {
    if |clicks| == 0 then InitialTab else Click(AfterClicks(clicks[..|clicks| - 1]), clicks[|clicks| - 1])
  }

  /** Number of lit buttons. */
  function ActiveCount(activeTab: string): nat
  {
    (if ButtonActive(activeTab, Syntax) then 1 else 0)
    + (if ButtonActive(activeTab, Semantics) then 1 else 0)
    + (if ButtonActive(activeTab, Pragmatics) then 1 else 0)
    + (if ButtonActive(activeTab, Philosophy) then 1 else 0)
  }

  /** At most one button is lit, and exactly one when the state is a tab id. */
  lemma AtMostOneActive(activeTab: string)
    ensures ActiveCount(activeTab) <= 1
    ensures ActiveCount(activeTab) == 1 <==> IsId(activeTab)
  {
    IdsDistinct();
    if IsId(activeTab) {
      var t :| Id(t) == activeTab;
      assert ButtonActive(activeTab, t);
    }
  }

  /** Whatever the user clicked, exactly one button is lit and exactly one
      panel is visible. */
  lemma ReachableHasOneActive(clicks: seq<Tab>)
    ensures ActiveCount(AfterClicks(clicks)) == 1
    ensures forall t :: PanelVisible(Id(t), AfterClicks(clicks)) <==> ButtonActive(AfterClicks(clicks), t)
  {
    var s := AfterClicks(clicks);
    if |clicks| == 0 {
      assert Id(Syntax) == s;
    } else {
      assert Id(clicks[|clicks| - 1]) == s;
    }
    AtMostOneActive(s);
  }

  /** The four highlight flags of `CodeWithAnnotations`. */
  datatype Highlights = Highlights(syntax: bool, semantics: bool, pragmatics: bool, philosophy: bool)

  function HighlightsOf(activeTab: string): (h: Highlights)
    ensures h.syntax <==> ButtonActive(activeTab, Syntax)
    ensures h.semantics <==> ButtonActive(activeTab, Semantics)
    ensures h.pragmatics <==> ButtonActive(activeTab, Pragmatics)
    ensures h.philosophy <==> ButtonActive(activeTab, Philosophy)
  {
    Highlights(activeTab == "syntax", activeTab == "semantics",
               activeTab == "pragmatics", activeTab == "philosophy")
  }

  function LitCount(h: Highlights): nat
  {
    (if h.syntax then 1 else 0) + (if h.semantics then 1 else 0)
    + (if h.pragmatics then 1 else 0) + (if h.philosophy then 1 else 0)
  }

  /** At most one family of code spans is coloured, exactly one when the
      state is a tab id, and it is the family of the lit button. */
  lemma OneHighlight(activeTab: string)
    ensures LitCount(HighlightsOf(activeTab)) == ActiveCount(activeTab)
    ensures LitCount(HighlightsOf(activeTab)) <= 1
    ensures LitCount(HighlightsOf(activeTab)) == 1 <==> IsId(activeTab)
  {
    AtMostOneActive(activeTab);
  }
}
