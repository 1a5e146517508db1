/** The typing effect of the not-found page (app/not-found.tsx).

    A 50 ms interval keeps a counter `i`. Each tick shows the first `i`
    characters of a fixed message, then increments `i`, and clears the interval
    once `i` has passed the message's length. Time is abstracted to the tick
    count. */
module Typewriter {

  /** The message the page types out. */
  const FullText: string :=
    "> cd /samuel/portfolio\nError 404: Path Not Found\nTry: /contact or /projects"

  /** The interval's counter, the text on screen and whether the interval is
      still scheduled. */
  datatype Typing = Typing(i: nat, text: string, running: bool)

  /** Mount: empty text, counter 0, interval scheduled. */
  const Start := Typing(0, "", true)

  /** JavaScript `s.substring(0, i)` for `i >= 0`: an end beyond the string is
      clamped to its length. */
  function Substring(s: string, i: nat): (r: string)
    ensures |r| <= |s| && r <= s
    ensures i <= |s| ==> |r| == i
    ensures i >= |s| ==> r == s
  {
    if i <= |s| then s[..i] else s
  }

  /** One interval tick. A cleared interval never fires again. */
  function Tick(full: string, t: Typing): (r: Typing)
    ensures !t.running ==> r == t
    ensures t.running ==> r.text == Substring(full, t.i) && r.i == t.i + 1
    ensures t.running ==> (r.running <==> r.i <= |full|)
  {
    if !t.running then t
    else
      var i := t.i + 1;
      Typing(i, Substring(full, t.i), i <= |full|)
  }

  function Ticks(full: string, t: Typing, k: nat): Typing
    decreases k
  {
    if k == 0 then t else Ticks(full, Tick(full, t), k - 1)
  }

  /** What the screen shows after `k` ticks, for `k` up to the last one. */
  predicate AfterTicks(full: string, t: Typing, k: nat)
  {
    && k <= |full| + 1
    && t.i == k
    && t.text == full[..if k == 0 then 0 else k - 1]
    && (t.running <==> k <= |full|)
  }

  /** After `k <= |full| + 1` ticks the counter is `k`, the screen shows the
      first `k - 1` characters, and the interval is still scheduled exactly
      while `k <= |full|`. */
  lemma {:induction false} TicksFromStart(full: string, k: nat)
    requires k <= |full| + 1
    ensures AfterTicks(full, Ticks(full, Start, k), k)
    decreases k
  {
    if k > 0 {
      TicksFromStart(full, k - 1);
      TicksSplit(full, Start, k - 1);
    }
  }

  /** Running `k + 1` ticks is running `k` ticks and then one more. */
  lemma {:induction false} TicksSplit(full: string, t: Typing, k: nat)
    ensures Ticks(full, t, k + 1) == Tick(full, Ticks(full, t, k))
    decreases k
  {
    if k > 0 {
      TicksSplit(full, Tick(full, t), k - 1);
    }
  }

  /** The text on screen is always a prefix of the message. */
  lemma TextIsPrefix(full: string, k: nat)
    requires k <= |full| + 1
    ensures Ticks(full, Start, k).text <= full
  {
    TicksFromStart(full, k);
  }

  /** From the second tick on, each tick reveals exactly one more character;
      the first tick shows the empty prefix. */
  lemma OneMoreCharacterPerTick(full: string, k: nat)
    requires 1 <= k <= |full|
    ensures |Ticks(full, Start, k + 1).text| == |Ticks(full, Start, k).text| + 1
    ensures Ticks(full, Start, 1).text == ""
  {
    TicksFromStart(full, k);
    TicksFromStart(full, k + 1);
    TicksFromStart(full, 1);
  }

  /** The interval is cleared on tick `|full| + 1` and not before, and the
      screen then shows the whole message. */
  lemma StopsWithFullText(full: string)
    ensures !Ticks(full, Start, |full| + 1).running
    ensures Ticks(full, Start, |full| + 1).text == full
    ensures forall k :: 0 <= k <= |full| ==> Ticks(full, Start, k).running
  {
    TicksFromStart(full, |full| + 1);
    forall k | 0 <= k <= |full|
      ensures Ticks(full, Start, k).running
    {
      TicksFromStart(full, k);
    }
  }

  /** Once cleared, further ticks change nothing. */
  lemma {:induction false} StoppedStaysStopped(full: string, t: Typing, k: nat)
    requires !t.running
    ensures Ticks(full, t, k) == t
    decreases k
  {
    if k > 0 {
      StoppedStaysStopped(full, Tick(full, t), k - 1);
    }
  }

  /** Runs the interval to completion and reports the final screen and the
      number of times the callback fired. */
  method TypeOut(full: string) returns (text: string, ticks: nat)
    ensures text == full
    ensures ticks == |full| + 1
  {
    var t := Start;
    ticks := 0;
    while t.running
      invariant ticks <= |full| + 1
      invariant AfterTicks(full, t, ticks)
      decreases |full| + 1 - ticks
    {
      t := Tick(full, t);
      ticks := ticks + 1;
    }
    text := t.text;
  }

  /** The page's own message is typed out in 76 ticks, 3.8 seconds at one
      tick per 50 ms. */
  lemma PageMessageTicks()
    ensures |FullText| + 1 == 76
    ensures Ticks(FullText, Start, 76).text == FullText
    ensures !Ticks(FullText, Start, 76).running
  {
    StopsWithFullText(FullText);
  }
}
