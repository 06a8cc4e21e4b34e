/** Cutting and attaching in well-separated texts that hold orphan blocks. */
module HistoryHolders {
  import opened HistoryBlocks
  import opened HistoryRuns
  import opened HistoryStack
  import opened HistoryText
  import opened Seqs
  import opened TaggedRuns

  // A holder is the prefix of a key (its own stack at the bottom), a section header's prefix, or the
  // document's trailing text.

  // ----- Cutting out of a separated text

  lemma ExciseSeparated(t: Text, k: nat)
    requires k < |Runs(AllLines(t))| && Separated(AllLines(t), Free)
    ensures |Runs(AllLines(t))| == |Blocks(AllLines(t), Blank)|
    ensures Blocks(AllLines(Excised(t, k)), Blank) == Without(Blocks(AllLines(t), Blank), k)
    ensures Separated(AllLines(Excised(t, k)), Free)
  {
    hide Blocks, Runs, CutAt, PiecesOf, Separated;
    CutLeavesSeparated(AllLines(t), RunAt(AllLines(t), k));
    ExciseRemovesOneBlock(t, k);
    var cut := CutAt(AllLines(t), RunAt(AllLines(t), k));
    TidyingKeepsBlocks(FromLines(cut.above + cut.below));
    assert AllLines(FromLines(cut.above + cut.below)) == cut.above + cut.below;
  }

  lemma CutLeavesSeparated(ls: seq<Line>, r: Run)
    requires IsRun(ls, r) && Separated(ls, Free)
    ensures var cut := CutAt(ls, r);
      !EndsInWas(cut.above) && Separated(cut.above + cut.below, Free) && cut.below != []
  {
    var p := PiecesOf(ls, r);
    hide Separated, PiecesOf, CutAt;
    PiecesAreValid(ls, r);
    CutKeepsSeparation(p);
    CutOfText(ls, r);
    if p.below == [] {
      assert p.above + p.below == p.above;
      BlankSeparates(p.above);
    }
  }

  lemma BlankSeparates(a: seq<Line>)
    requires Separated(a, Free)
    ensures Separated(a + [Blank], Free) && GapAfter(a + [Blank], Free) == Free
  {
    GapConcat(a, [Blank], Free);
    assert [Blank][1..] == [];
  }

  // ----- Cutting out of the head above a key's own stack

  /** A head below which a stack can stand without coming near an orphan's history lines. */
  predicate GoodHead(h: seq<Line>) {
    Separated(h, Free) && GapAfter(h, Free) == Free
  }

  lemma GoodHeadEnd(h: seq<Line>)
    requires GoodHead(h)
    ensures !EndsInWas(h)
  {
    LastGap(h);
  }

  /** The head left when the k-th block of head `h` is cut out. */
  function HeadWithout(h: seq<Line>, k: nat): seq<Line>
    requires k < |Runs(h)|
  {
    var p := PiecesOf(h, RunAt(h, k));
    Squeezed(p.above + p.below, 0)
  }

  lemma HeadWithoutBlock(h: seq<Line>, k: nat)
    requires k < |Runs(h)| && GoodHead(h)
    ensures |Runs(h)| == |Blocks(h, Blank)|
    ensures Blocks(HeadWithout(h, k), Blank) == Without(Blocks(h, Blank), k)
    ensures GoodHead(HeadWithout(h, k))
  {
    var p := PiecesOf(h, RunAt(h, k));
    hide Blocks, Runs, PiecesOf, Separated, GapAfter, Squeezed;
    PiecesOfBlock(h, k);
    BlocksAbovePieces(h, k);
    CutKeepsSeparation(p);
    CutRemovesOneBlock(p);
    SqueezeKeepsBlocks(p.above + p.below, Blank);
    SqueezeKeepsGaps(p.above + p.below, 0, Free);
  }

  lemma RunAboveStack(h: seq<Line>, w: seq<Line>, indent: Line, k: nat)
    requires k < |Runs(h)| && AllWas(w) && !EndsInWas(h) && IsWhite(indent)
    ensures var ls := AllLines(Text(h + w, indent));
      && k < |Runs(ls)| && RunAt(ls, k) == RunAt(h, k) && RunAt(h, k).end < |h|
  {
    var ls := AllLines(Text(h + w, indent));
    assert Init(ls) == h + w && Runs(ls) == Runs(h + w);
    hide Runs;
    RunsAboveStack(h, w);
    var r := RunAt(h, k);
    assert h[r.end - 1].Was?;
  }

  /** Excision above a key's own stack leaves the stack and the indent as they are. */
  lemma ExciseAboveStack(h: seq<Line>, w: seq<Line>, indent: Line, k: nat)
    requires k < |Runs(h)| && AllWas(w) && GoodHead(h) && IsWhite(indent)
    ensures k < |Runs(AllLines(Text(h + w, indent)))|
    ensures Excised(Text(h + w, indent), k) == Text(HeadWithout(h, k) + w, indent)
    ensures ExcisedBlock(Text(h + w, indent), k) ==
            (var p := PiecesOf(h, RunAt(h, k)); p.comments + p.run)
  {
    GoodHeadEnd(h);
    RunAboveStack(h, w, indent, k);
    var r, x := RunAt(h, k), w + [indent];
    var p := PiecesOf(h, r);
    var ls := AllLines(Text(h + w, indent));
    hide Runs, PiecesOf, CutAt, Squeezed, GoodHead;
    assert ls == h + x;
    CutAboveStack(h, x, r);
    Assoc(p.above, p.below, x);
    FromLinesAbove(p.above + p.below, w, indent);
    SqueezedConcat(p.above + p.below, w, 0);
    SqueezedWas(w, Newlines(p.above + p.below, 0));
  }

  lemma FromLinesAbove(a: seq<Line>, w: seq<Line>, indent: Line)
    ensures FromLines(a + (w + [indent])) == Text(a + w, indent)
  {
  }

  // ----- Attaching a block

  /** attach_block above a key: the block, a blank line, the key's own prefix. */
  function AttachAbove(block: Text, prefix: Text): Text {
    var rest := TrimStart(prefix);
    Text(AllLines(TrimEnd(block)) + [Blank] + rest.lines, rest.tail)
  }

  /** append_block: a blank line separates the block from earlier content; one newline ends it. */
  function AppendBlock(text: Text, block: Text): Text {
    var trimmed, b := TrimEnd(text), AllLines(TrimEnd(block));
    if trimmed != EMPTY then Text(AllLines(trimmed) + [Blank] + b, Blank)
    else Text(text.lines + b, Blank)
  }

  /** attach_tail: into the next section's header, where a blank line follows, or the trailing text. */
  function AttachTail(text: Text, block: Text, inHeader: bool): Text {
    var t := AppendBlock(text, block);
    if inHeader && !(|t.lines| >= 2 && t.lines[|t.lines| - 1] == Blank) then Text(t.lines + [Blank], Blank) else t
  }

  lemma TrimmedHolds(t: Text)
    ensures var a := AllLines(TrimEnd(t));
      && Blocks(a, Blank) == Blocks(AllLines(t), Blank)
      && (Separated(AllLines(t), Free) ==> Separated(a, Free))
  {
    var a := AllLines(TrimEnd(t));
    var blanks := TrimEndCuts(t);
    BlocksConcat(a, blanks, Blank);
    BlanksHoldNothing(blanks, Above(a, Blank));
    GapConcat(a, blanks, Free);
  }

  lemma DroppedHolds(h: seq<Line>)
    ensures Blocks(DropBlanks(h), Blank) == Blocks(h, Blank)
    ensures GoodHead(h) ==> GoodHead(DropBlanks(h))
    ensures Separated(h, Free) ==> Separated(DropBlanks(h), Free)
  {
    var d := DropBlanks(h);
    var blanks := DropBlanksCuts(h);
    hide DropBlanks;
    BlocksConcat(blanks, d, Blank);
    BlanksHoldNothing(blanks, Blank);
    BlocksBelow(d, Above(blanks, Blank), Blank);
    GapConcat(blanks, d, Free);
    BlanksSeparate(blanks, Free);
  }

  /** Two separated texts with a blank line between them. */
  lemma Joined(a: seq<Line>, b: seq<Line>)
    requires Separated(a, Free)
    ensures Blocks(a + [Blank] + b, Blank) == Blocks(a, Blank) + Blocks(b, Blank)
    ensures Separated(a + [Blank] + b, Free) <==> Separated(b, Free)
    ensures GapAfter(a + [Blank] + b, Free) == GapAfter(b, Free)
  {
    BlankSeparates(a);
    BlocksConcat(a, [Blank], Blank);
    BlanksHoldNothing([Blank], Above(a, Blank));
    hide Blocks, Separated, GapAfter;
    BlocksConcat(a + [Blank], b, Blank);
    GapConcat(a + [Blank], b, Free);
  }

  /** Above a key the block comes first and the key keeps its stack and its indent. */
  lemma AttachKeepsStack(block: Text, h: seq<Line>, w: seq<Line>, indent: Line)
    requires Separated(AllLines(block), Free) && AllWas(w)
    ensures var h' := AllLines(TrimEnd(block)) + [Blank] + DropBlanks(h);
      && AttachAbove(block, Text(h + w, indent)) == Text(h' + w, indent)
      && Blocks(h', Blank) == Blocks(AllLines(block), Blank) + Blocks(h, Blank)
      && (GoodHead(h) ==> GoodHead(h'))
      && (Separated(h, Free) ==> Separated(h', Free))
  {
    var a := AllLines(TrimEnd(block));
    TrimmedHolds(block);
    DroppedHolds(h);
    DropBlanksAboveStack(h, w);
    hide Blocks, Separated, GapAfter, DropBlanks, TrimEnd;
    Joined(a, DropBlanks(h));
    Assoc(a + [Blank], DropBlanks(h), w);
  }

  /** At the end of a section the block comes last. */
  lemma AttachTailHolds(text: Text, block: Text, inHeader: bool)
    requires Separated(AllLines(text), Free) && Separated(AllLines(block), Free)
    ensures var t := AttachTail(text, block, inHeader);
      && Blocks(AllLines(t), Blank) == Blocks(AllLines(text), Blank) + Blocks(AllLines(block), Blank)
      && Separated(AllLines(t), Free)
  {
    var b, trimmed := AllLines(TrimEnd(block)), TrimEnd(text);
    TrimmedHolds(block);
    TrimmedHolds(text);
    var body := if trimmed != EMPTY then AllLines(trimmed) + [Blank] + b else text.lines + b;
    assert Blocks(body, Blank) == Blocks(AllLines(text), Blank) + Blocks(AllLines(block), Blank) && Separated(body, Free) by {
      if trimmed != EMPTY {
        Joined(AllLines(trimmed), b);
      } else {
        var blanks := TrimEndCuts(text);
        BlankText(text, blanks, b);
      }
    }
    hide Blocks, Separated, GapAfter;
    EndedByBlank(body);
    EndedByBlank(body + [Blank]);
  }

  lemma EndedByBlank(body: seq<Line>)
    requires Separated(body, Free)
    ensures Blocks(body + [Blank], Blank) == Blocks(body, Blank) && Separated(body + [Blank], Free)
  {
    BlankSeparates(body);
    BlocksConcat(body, [Blank], Blank);
    BlanksHoldNothing([Blank], Above(body, Blank));
  }

  lemma BlankText(text: Text, blanks: seq<Line>, b: seq<Line>)
    requires AllLines(text) == [Blank] + blanks && AllBlank(blanks) && Separated(b, Free)
    ensures Blocks(AllLines(text), Blank) == [] && Blocks(text.lines + b, Blank) == Blocks(b, Blank)
    ensures Separated(text.lines + b, Free)
  {
    BlanksHoldNothing(AllLines(text), Blank);
    assert AllBlank(text.lines) by {
      assert forall i | 0 <= i < |text.lines| :: text.lines[i] == AllLines(text)[i];
    }
    BlanksHoldNothing(text.lines, Blank);
    BlanksSeparate(text.lines, Free);
    BlocksConcat(text.lines, b, Blank);
    BlocksBelow(b, Above(text.lines, Blank), Blank);
    GapConcat(text.lines, b, Free);
  }

  // ----- Attaching and cutting out again

  lemma TrimmedIsBlock(body: seq<Line>)
    requires body != [] && body[|body| - 1] != Blank
    ensures AllLines(TrimEnd(Text(body, Blank))) == body
  {
    assert body + [] == body;
    TrimmedBlock(body, []);
  }

  lemma FirstRunIs(comments: seq<Line>, w: seq<Line>, rest: seq<Line>)
    requires AllComments(comments) && AllWas(w) && w != []
    ensures var ls := comments + w + [Blank] + rest;
      |Runs(ls)| > 0 && Runs(ls)[0] == Run(|comments|, |comments| + |w|)
  {
    hide Runs;
    var ls, r := comments + w + [Blank] + rest, Run(|comments|, |comments| + |w|);
    RunsAreRuns(ls);
    assert ls[|comments|] == w[0] && ls[|comments| + |w|] == Blank;
    var k := RunOf(ls, |comments|);
    RunBelowComments(comments, w, rest);
    OneRunAt(ls, r, Runs(ls)[k]);
    assert forall i | 0 <= i < |comments| :: ls[i] == comments[i];
    assert ls[Runs(ls)[0].start].Was?;
  }

  lemma RunBelowComments(comments: seq<Line>, w: seq<Line>, rest: seq<Line>)
    requires AllComments(comments) && AllWas(w) && w != []
    ensures IsRun(comments + w + [Blank] + rest, Run(|comments|, |comments| + |w|))
  {
    var ls := comments + w + [Blank] + rest;
    assert forall i | 0 <= i < |w| :: ls[|comments| + i] == w[i];
    assert ls[|comments| + |w|] == Blank;
    assert comments != [] ==> ls[|comments| - 1] == comments[|comments| - 1];
  }

  lemma {:induction false} StartOfComments(ls: seq<Line>, s: nat)
    requires s <= |ls| && AllComments(ls[..s])
    ensures BlockStart(ls, s) == 0
  {
    if s > 0 {
      assert ls[..s][s - 1] == ls[s - 1];
      assert ls[..s - 1] == ls[..s][..s - 1];
      StartOfComments(ls, s - 1);
    }
  }

  lemma CutOffTheTop(comments: seq<Line>, w: seq<Line>, rest: seq<Line>)
    requires AllComments(comments) && AllWas(w) && w != [] && rest != []
    ensures CutAt(comments + w + [Blank] + rest, Run(|comments|, |comments| + |w|)) == Excision([], comments + w, rest)
  {
    hide BlockStart;
    var ls := comments + w + [Blank] + rest;
    assert ls[..|comments|] == comments;
    StartOfComments(ls, |comments|);
    assert ls[|comments| + |w|] == Blank;
    assert ls[0..|comments| + |w|] == comments + w && ls[|comments| + |w| + 1..] == rest && ls[..0] == [];
  }

  /** A block attached above a key and cut out again comes back whole, and leaves the key's prefix as it
    * was but for blank lines at its top and any pile-up of them. */
  lemma AttachThenExcise(comments: seq<Line>, w: seq<Line>, prefix: Text)
    requires AllComments(comments) && AllWas(w) && w != []
    ensures var t := AttachAbove(Text(comments + w, Blank), prefix);
      && |Runs(AllLines(t))| > 0 && ExcisedBlock(t, 0) == comments + w
      && Excised(t, 0) == Tidied(TrimStart(prefix))
  {
    hide Runs, CutAt, Squeezed, DropBlanks, TrimEnd, AllComments;
    var body, kept := comments + w, TrimStart(prefix);
    var t := AttachAbove(Text(body, Blank), prefix);
    TrimmedIsBlock(body);
    var rest := AllLines(kept);
    assert AllLines(t) == body + [Blank] + rest;
    FirstRunIs(comments, w, rest);
    CutOffTheTop(comments, w, rest);
    assert [] + rest == rest && FromLines(rest) == kept;
  }
}
