/** A key's own stack: the history lines directly above the key. */
module HistoryStack {
  import opened HistoryRuns
  import opened HistoryText
  import opened TaggedRuns

  /** `head` is what stands above the stack, `indent` the key's own leading white space. */
  datatype Pieces = Pieces(head: Text, stack: seq<WasEntry>, indent: Line)

  function StackLen(ls: seq<Line>): (n: nat)
    ensures n <= |ls| && forall i | |ls| - n <= i < |ls| :: ls[i].Was?
    ensures n < |ls| ==> !ls[|ls| - n - 1].Was?
  {
    if ls == [] || !ls[|ls| - 1].Was? then 0 else 1 + StackLen(ls[..|ls| - 1])
  }

  function Split(t: Text): Pieces {
    var body := if IsWhite(t.tail) then t.lines else AllLines(t);
    var cut := |body| - StackLen(body);
    Pieces(if IsWhite(t.tail) || cut < |body| then Text(body[..cut], Blank) else t,
           Entries(body[cut..]),
           if IsWhite(t.tail) then t.tail else Blank)
  }

  /** split_bottom_stack: takes history lines off the bottom until some other line shows. */
  method SplitBottomStack(t: Text) returns (head: Text, stack: seq<WasEntry>, indent: Line)
    ensures Pieces(head, stack, indent) == Split(t)
  {
    hide Split, WasLines, StackLen, Entries;
    var segs := AllLines(t);
    indent := Blank;
    if IsWhite(t.tail) {
      indent := t.tail;
      segs := t.lines;
    }
    ghost var body := segs;
    stack := [];
    NoLines(body);
    while segs != [] && segs[|segs| - 1].Was?
      invariant |segs| <= |body| && segs == body[..|segs|]
      invariant body[|segs|..] == WasLines(stack)
    {
      StackGrows(body, |segs| - 1, stack);
      stack := [segs[|segs| - 1].entry] + stack;
      segs := segs[..|segs| - 1];
    }
    SplitIs(t, body, |segs|, stack);
    head := if IsWhite(t.tail) || stack != [] then Text(segs, Blank) else t;
  }

  lemma NoLines(body: seq<Line>)
    ensures body[|body|..] == WasLines([])
  {
  }

  lemma {:induction false} StackGrows(body: seq<Line>, i: nat, stack: seq<WasEntry>)
    requires i < |body| && body[i].Was? && body[i + 1..] == WasLines(stack)
    ensures body[i..] == WasLines([body[i].entry] + stack)
  {
    hide WasLines;
    assert body[i..] == [body[i]] + body[i + 1..];
    assert WasLines([body[i].entry] + stack) == [body[i]] + WasLines(stack);
  }

  lemma SplitIs(t: Text, body: seq<Line>, cut: nat, stack: seq<WasEntry>)
    requires body == if IsWhite(t.tail) then t.lines else AllLines(t)
    requires cut <= |body| && body[cut..] == WasLines(stack) && (cut > 0 ==> !body[cut - 1].Was?)
    ensures Split(t).head == if IsWhite(t.tail) || stack != [] then Text(body[..cut], Blank) else t
    ensures Split(t).stack == stack && Split(t).indent == if IsWhite(t.tail) then t.tail else Blank
  {
    hide WasLines;
    assert forall i | cut <= i < |body| :: body[i] == body[cut..][i - cut];
    StackLenIs(body, |stack|);
    EntriesOfWasLines(stack);
  }

  lemma StackLenIs(ls: seq<Line>, n: nat)
    requires n <= |ls| && (forall i | |ls| - n <= i < |ls| :: ls[i].Was?)
    requires n == |ls| || !ls[|ls| - n - 1].Was?
    ensures StackLen(ls) == n
  {
  }

  /** The lines of a text once it is made to end in a newline. */
  function Terminated(head: Text): seq<Line> {
    if head.tail == Blank then head.lines else AllLines(head)
  }

  function RenderStackBlock(head: Text, stack: seq<WasEntry>, indent: Line): Text {
    Text(Terminated(head) + WasLines(stack), indent)
  }

  function RenderOrphanBlock(head: Text, flag: string, stack: seq<WasEntry>): Text {
    Text(Terminated(head) + [Tag(flag)] + WasLines(stack), Blank)
  }

  function PushStack(prefix: Text, entry: WasEntry): Text {
    var p := Split(prefix);
    RenderStackBlock(p.head, Capped([entry] + p.stack), p.indent)
  }

  /** Rendering what was split off restores the prefix exactly when its last line is white space,
    * that is when every line above the indent ends in a newline. */
  lemma RenderAfterSplit(t: Text)
    ensures (var p := Split(t); RenderStackBlock(p.head, p.stack, p.indent)) == t <==> IsWhite(t.tail)
  {
    hide WasLines, Entries, StackLen;
    var p := Split(t);
    var body := if IsWhite(t.tail) then t.lines else AllLines(t);
    var cut := |body| - StackLen(body);
    assert WasLines(p.stack) == body[cut..];
    assert body == body[..cut] + body[cut..];
  }

  /** Splitting finds exactly the stack that was rendered below a head not ending in history. */
  lemma SplitAfterRender(head: seq<Line>, stack: seq<WasEntry>, indent: Line)
    requires IsWhite(indent) && !EndsInWas(head)
    ensures Split(Text(head + WasLines(stack), indent)) == Pieces(Text(head, Blank), stack, indent)
  {
    var body := head + WasLines(stack);
    assert body[|head|..] == WasLines(stack) && body[..|head|] == head;
    StackLenIs(body, |stack|);
    EntriesOfWasLines(stack);
  }

  lemma EntriesOfWasLines(stack: seq<WasEntry>)
    ensures AllWas(WasLines(stack)) && Entries(WasLines(stack)) == stack
  {
    hide WasLines, Entries;
    assert forall i | 0 <= i < |stack| :: WasLines(stack)[i].entry == stack[i];
  }

  lemma SplitHead(t: Text)
    requires IsWhite(t.tail)
    ensures var p := Split(t);
      && p.head.tail == Blank && p.indent == t.tail && t.lines == p.head.lines + WasLines(p.stack)
      && !EndsInWas(p.head.lines)
  {
    RenderAfterSplit(t);
  }

  /** push_stack keeps the head and the indent and makes the stack the newest five of the new
    * entry and the old stack. */
  lemma PushedStack(t: Text, entry: WasEntry)
    ensures Split(PushStack(t, entry)) ==
            Pieces(Text(Terminated(Split(t).head), Blank), Capped([entry] + Split(t).stack), Split(t).indent)
    ensures IsWhite(t.tail) ==> Split(PushStack(t, entry)).head == Split(t).head
  {
    SplitAfterRender(Terminated(Split(t).head), Capped([entry] + Split(t).stack), Split(t).indent);
  }

  // ----- Orphan blocks in a key's prefix

  /** orphan_runs_in: all runs, except that the bottom run directly above a managed key is that
    * key's own stack. */
  function OrphanRuns(t: Text, managed: bool): seq<Run> {
    var runs := Runs(AllLines(t));
    if managed && runs != [] &&
       (var end := runs[|runs| - 1].end; end > |t.lines| || (end == |t.lines| && IsWhite(t.tail)))
    then runs[..|runs| - 1] else runs
  }

  lemma {:induction false} RunsAboveStack(h: seq<Line>, w: seq<Line>)
    requires AllWas(w) && !EndsInWas(h)
    ensures Runs(h + w) == Runs(h) + if w == [] then [] else [Run(|h|, |h| + |w|)]
  {
    if w == [] {
      assert h + w == h;
    } else {
      NextLine(h + w);
      hide Runs;
      assert Init(h + w) == h + Init(w);
      RunsAboveStack(h, Init(w));
      if |w| == 1 {
        assert h + Init(w) == h;
      } else {
        WithoutLast(Runs(h), Run(|h|, |h| + |w| - 1));
      }
    }
  }

  lemma WithoutLast(rs: seq<Run>, r: Run)
    ensures (rs + [r])[..|rs + [r]| - 1] == rs
  {
  }

  lemma LastRunEnds(h: seq<Line>)
    requires Runs(h) != [] && !EndsInWas(h)
    ensures Runs(h)[|Runs(h)| - 1].end < |h|
  {
    RunsAreRuns(h);
    hide Runs;
    var last := Runs(h)[|Runs(h)| - 1];
    assert IsRun(h, last) && h[last.end - 1].Was?;
  }

  lemma RunsAboveIndent(ls: seq<Line>, indent: Line)
    requires !indent.Was?
    ensures Runs(ls + [indent]) == Runs(ls)
  {
    assert Init(ls + [indent]) == ls;
  }

  lemma OrphansAboveStack(h: seq<Line>, w: seq<Line>, indent: Line)
    requires AllWas(w) && !EndsInWas(h) && IsWhite(indent)
    ensures OrphanRuns(Text(h + w, indent), true) == Runs(h)
    ensures OrphanRuns(Text(h + w, indent), false) == Runs(h + w)
  {
    hide Runs;
    RunsAboveIndent(h + w, indent);
    RunsAboveStack(h, w);
    if w != [] {
      assert Runs(h + w)[..|Runs(h + w)| - 1] == Runs(h);
    } else if Runs(h) != [] {
      LastRunEnds(h);
    }
  }

  /** The orphans above a managed key are the runs of the head its own stack is split from. */
  lemma OrphansAreInTheHead(t: Text)
    requires IsWhite(t.tail)
    ensures OrphanRuns(t, true) == Runs(Split(t).head.lines)
    ensures OrphanRuns(t, false) == Runs(t.lines)
  {
    hide OrphanRuns, Runs, Split;
    SplitHead(t);
    OrphansAboveStack(Split(t).head.lines, WasLines(Split(t).stack), t.tail);
  }
}
