/** Cutting an orphan block out of a text, and attaching one to a text. */
module HistoryBlocks {
  import opened HistoryRuns
  import opened HistoryText
  import opened Seqs
  import opened TaggedRuns
  import opened Wrappers

  // `excise_run` of `src/config.rs` takes a run together with the comment lines directly above it;
  // `attach_block` and `append_block` put a block above a key or at the end of a section. The lemmas
  // say what each does to the sequence of blocks.

  // ----- Separation: no history line is reached upward from another through comments only

  /** What lies above the next line, looking up through comment lines: a history line directly
    * (`AtRun`), a history line below which comments stand (`BelowRun`), or neither. */
  datatype Gap = Free | AtRun | BelowRun

  function NextGap(g: Gap, l: Line): Gap {
    if l.Was? then AtRun
    else if IsComment(l) then if g == Free then Free else BelowRun
    else Free
  }

  function GapAfter(ls: seq<Line>, g: Gap): Gap {
    if ls == [] then g else GapAfter(ls[1..], NextGap(g, ls[0]))
  }

  /** Neighbouring runs have a line that is not a comment between them. */
  predicate Separated(ls: seq<Line>, g: Gap) {
    ls == [] || ((ls[0].Was? ==> g != BelowRun) && Separated(ls[1..], NextGap(g, ls[0])))
  }

  lemma {:induction false} GapConcat(a: seq<Line>, b: seq<Line>, g: Gap)
    ensures GapAfter(a + b, g) == GapAfter(b, GapAfter(a, g))
    ensures Separated(a + b, g) <==> Separated(a, g) && Separated(b, GapAfter(a, g))
  {
    if a == [] {
      assert a + b == b;
    } else {
      assert (a + b)[1..] == a[1..] + b;
      GapConcat(a[1..], b, NextGap(g, a[0]));
    }
  }

  /** A text that is fine below a history line is fine below anything. */
  lemma {:induction false} FreeIsBest(ls: seq<Line>, g: Gap)
    ensures Separated(ls, g) ==> Separated(ls, Free)
    ensures GapAfter(ls, g) == Free ==> GapAfter(ls, Free) == Free
  {
    if ls != [] {
      FreeIsBest(ls[1..], NextGap(g, ls[0]));
    }
  }

  lemma {:induction false} GapOfWas(w: seq<Line>, g: Gap)
    requires AllWas(w) && w != []
    ensures GapAfter(w, g) == AtRun && (Separated(w, g) <==> g != BelowRun)
  {
    if |w| > 1 {
      GapOfWas(w[1..], AtRun);
    }
  }

  predicate AllComments(ls: seq<Line>) {
    forall i | 0 <= i < |ls| :: IsComment(ls[i])
  }

  lemma {:induction false} GapOfComments(c: seq<Line>, g: Gap)
    requires AllComments(c)
    ensures GapAfter(c, g) == (if c == [] || g == Free then g else BelowRun) && Separated(c, g)
  {
    if c != [] {
      GapOfComments(c[1..], NextGap(g, c[0]));
    }
  }

  // ----- Tidying blank lines

  /** The lines left once no three newlines follow each other, `c` newlines having just been
    * written: a blank line is dropped exactly when two newlines stand before it. */
  function Squeezed(ls: seq<Line>, c: nat): seq<Line>
    requires c <= 2
  {
    if ls == [] then []
    else if ls[0] != Blank then [ls[0]] + Squeezed(ls[1..], 1)
    else if c == 2 then Squeezed(ls[1..], 2)
    else [Blank] + Squeezed(ls[1..], c + 1)
  }

  function Newlines(ls: seq<Line>, c: nat): (n: nat)
    requires c <= 2
    ensures n <= 2
  {
    if ls == [] then c
    else Newlines(ls[1..], if ls[0] != Blank then 1 else if c == 2 then 2 else c + 1)
  }

  lemma {:induction false} SqueezedConcat(a: seq<Line>, b: seq<Line>, c: nat)
    requires c <= 2
    ensures Squeezed(a + b, c) == Squeezed(a, c) + Squeezed(b, Newlines(a, c))
    ensures Newlines(a + b, c) == Newlines(b, Newlines(a, c))
  {
    if a == [] {
      assert a + b == b;
    } else {
      var n := if a[0] != Blank then 1 else if c == 2 then 2 else c + 1;
      SqueezedConcat(a[1..], b, n);
      SqueezedFirst(a, c);
      SqueezedFirst(a + b, c);
      hide Squeezed, Newlines;
      assert (a + b)[1..] == a[1..] + b;
      Assoc(if a[0] == Blank && c == 2 then [] else [a[0]], Squeezed(a[1..], n), Squeezed(b, Newlines(a, c)));
    }
  }

  lemma SqueezedFirst(ls: seq<Line>, c: nat)
    requires c <= 2 && ls != []
    ensures var n := if ls[0] != Blank then 1 else if c == 2 then 2 else c + 1;
      && Squeezed(ls, c) == (if ls[0] == Blank && c == 2 then [] else [ls[0]]) + Squeezed(ls[1..], n)
      && Newlines(ls, c) == Newlines(ls[1..], n)
  {
    assert [] + Squeezed(ls[1..], 2) == Squeezed(ls[1..], 2);
  }

  lemma SqueezedNext(ls: seq<Line>, c: nat)
    requires c <= 2 && ls != []
    ensures var l, n := ls[|ls| - 1], Newlines(Init(ls), c);
      && Squeezed(ls, c) == (if l == Blank && n == 2 then Squeezed(Init(ls), c) else Squeezed(Init(ls), c) + [l])
      && Newlines(ls, c) == (if l != Blank then 1 else if n == 2 then 2 else n + 1)
  {
    var l, n := ls[|ls| - 1], Newlines(Init(ls), c);
    assert ls == Init(ls) + [l];
    SqueezedConcat(Init(ls), [l], c);
    assert [l][1..] == [];
  }

  lemma {:induction false} SqueezedWas(w: seq<Line>, c: nat)
    requires AllWas(w) && c <= 2
    ensures Squeezed(w, c) == w
  {
    if w != [] {
      SqueezedWas(w[1..], 1);
    }
  }

  /** Tidying changes no separation. */
  lemma {:induction false} SqueezeKeepsGaps(ls: seq<Line>, c: nat, g: Gap)
    requires c <= 2 && (c == 2 ==> g == Free)
    ensures GapAfter(Squeezed(ls, c), g) == GapAfter(ls, g)
    ensures Separated(Squeezed(ls, c), g) <==> Separated(ls, g)
  {
    if ls == [] {
    } else if ls[0] != Blank {
      SqueezeKeepsGaps(ls[1..], 1, NextGap(g, ls[0]));
      assert Squeezed(ls, c)[1..] == Squeezed(ls[1..], 1);
    } else if c == 2 {
      SqueezeKeepsGaps(ls[1..], 2, Free);
    } else {
      SqueezeKeepsGaps(ls[1..], c + 1, Free);
      assert Squeezed(ls, c)[1..] == Squeezed(ls[1..], c + 1);
    }
  }

  /** Tidying changes no block. */
  lemma {:induction false} SqueezeKeepsBlocks(ls: seq<Line>, prev: Line)
    ensures Blocks(Squeezed(ls, 0), prev) == Blocks(ls, prev)
    ensures Above(Squeezed(ls, 0), prev) == Above(ls, prev)
    ensures EndsInWas(Squeezed(ls, 0)) <==> EndsInWas(ls)
    ensures Newlines(ls, 0) == 2 ==> ls != [] && ls[|ls| - 1] == Blank && Squeezed(ls, 0) != []
  {
    if ls != [] {
      SqueezeKeepsBlocks(Init(ls), prev);
      SqueezedNext(ls, 0);
      hide Squeezed, Newlines;
      if !(ls[|ls| - 1] == Blank && Newlines(Init(ls), 0) == 2) {
        assert Init(Squeezed(ls, 0)) == Squeezed(Init(ls), 0);
      }
    }
  }

  // ----- Trimming newlines

  /** trim_end_matches('\n'). */
  function TrimEnd(t: Text): Text
    decreases |t.lines|
  {
    if t.tail == Blank && t.lines != [] then TrimEnd(Text(t.lines[..|t.lines| - 1], t.lines[|t.lines| - 1])) else t
  }

  function DropBlanks(ls: seq<Line>): seq<Line> {
    if ls != [] && ls[0] == Blank then DropBlanks(ls[1..]) else ls
  }

  /** trim_start_matches('\n'). */
  function TrimStart(t: Text): Text {
    Text(DropBlanks(t.lines), t.tail)
  }

  predicate AllBlank(ls: seq<Line>) {
    forall i | 0 <= i < |ls| :: ls[i] == Blank
  }

  lemma {:induction false} TrimEndCuts(t: Text) returns (blanks: seq<Line>)
    ensures AllLines(t) == AllLines(TrimEnd(t)) + blanks && AllBlank(blanks)
    ensures TrimEnd(t).tail == Blank ==> TrimEnd(t) == EMPTY
    decreases |t.lines|
  {
    if t.tail == Blank && t.lines != [] {
      var u := Text(t.lines[..|t.lines| - 1], t.lines[|t.lines| - 1]);
      blanks := TrimEndCuts(u);
      assert AllLines(t) == AllLines(u) + [Blank];
      blanks := blanks + [Blank];
    } else {
      blanks := [];
    }
  }

  lemma {:induction false} DropBlanksCuts(ls: seq<Line>) returns (blanks: seq<Line>)
    ensures ls == blanks + DropBlanks(ls) && AllBlank(blanks)
  {
    if ls != [] && ls[0] == Blank {
      blanks := DropBlanksCuts(ls[1..]);
      blanks := [Blank] + blanks;
    } else {
      blanks := [];
    }
  }

  lemma {:induction false} DropBlanksAboveStack(h: seq<Line>, w: seq<Line>)
    requires AllWas(w)
    ensures DropBlanks(h + w) == DropBlanks(h) + w
  {
    if h == [] {
      assert h + w == w;
    } else if h[0] == Blank {
      assert (h + w)[1..] == h[1..] + w;
      DropBlanksAboveStack(h[1..], w);
    }
  }

  lemma {:induction false} BlanksHoldNothing(b: seq<Line>, prev: Line)
    requires AllBlank(b)
    ensures Blocks(b, prev) == []
  {
    if b != [] {
      BlanksHoldNothing(Init(b), prev);
    }
  }

  lemma {:induction false} BlanksSeparate(b: seq<Line>, g: Gap)
    requires AllBlank(b)
    ensures Separated(b, g) && GapAfter(b, g) == if b == [] then g else Free
  {
    if b != [] {
      BlanksSeparate(b[1..], Free);
    }
  }

  // ----- Cutting a block out

  /** Goes up from line `s` through the comment lines directly above it. */
  function BlockStart(ls: seq<Line>, s: nat): (b: nat)
    requires s <= |ls|
    ensures b <= s && forall i | b <= i < s :: IsComment(ls[i])
    ensures b > 0 ==> !IsComment(ls[b - 1])
  {
    if s > 0 && IsComment(ls[s - 1]) then BlockStart(ls, s - 1) else s
  }

  /** One blank separator line below the run goes with the block, unless it is the unterminated
    * last line. */
  function BlockEnd(ls: seq<Line>, e: nat): (b: nat)
    requires 0 < e <= |ls|
    ensures e <= b <= |ls| && b <= e + 1
  {
    if e + 1 < |ls| && ls[e] == Blank then e + 1 else e
  }

  function BlockRange(ls: seq<Line>, r: Run): Run
    requires r.start < r.end <= |ls|
  {
    Run(BlockStart(ls, r.start), BlockEnd(ls, r.end))
  }

  /** run_block_range: the k-th run with the comments above it and the separator below it. */
  method RunBlockRange(t: Text, k: nat) returns (range: Option<Run>)
    ensures range == if k < |Runs(AllLines(t))|
                     then Some(BlockRange(AllLines(t), RunAt(AllLines(t), k))) else None
  {
    var ls := AllLines(t);
    var runs := ScanRuns(ls);
    if k >= |runs| {
      return None;
    }
    RunsAreRuns(ls);
    var r := runs[k];
    var start, end := r.start, r.end;
    while start > 0 && IsComment(ls[start - 1])
      invariant 0 <= start <= |ls| && BlockStart(ls, r.start) == BlockStart(ls, start)
    {
      start := start - 1;
    }
    if end + 1 < |ls| && ls[end] == Blank {
      end := end + 1;
    }
    range := Some(Run(start, end));
  }

  /** What is left above and below a block, and the block itself. */
  datatype Excision = Excision(above: seq<Line>, block: seq<Line>, below: seq<Line>)

  function CutAt(ls: seq<Line>, r: Run): Excision
    requires r.start < r.end <= |ls|
  {
    var range := BlockRange(ls, r);
    Excision(ls[..range.start], ls[range.start..r.end], if range.end < |ls| then ls[range.end..] else [Blank])
  }

  function FromLines(ls: seq<Line>): Text
    requires ls != []
  {
    Text(ls[..|ls| - 1], ls[|ls| - 1])
  }

  function Tidied(t: Text): Text {
    Text(Squeezed(t.lines, 0), t.tail)
  }

  /** excise_run: the text without the k-th block, and the block's lines. */
  method ExciseRun(t: Text, k: nat) returns (without: Text, block: seq<Line>)
    ensures k >= |Runs(AllLines(t))| ==> without == t && block == []
    ensures k < |Runs(AllLines(t))| ==>
      var cut := CutAt(AllLines(t), RunAt(AllLines(t), k));
      without == Tidied(FromLines(cut.above + cut.below)) && block == cut.block
  {
    var range := RunBlockRange(t, k);
    if range.None? {
      return t, [];
    }
    var ls, start, end := AllLines(t), range.value.start, range.value.end;
    block := AllLines(TrimEnd(Text(ls[start..end], Blank)));
    without := Tidied(FromLines(ls[..start] + if end < |ls| then ls[end..] else [Blank]));
    BlockText(ls, start, RunAt(ls, k).end, end);
  }

  lemma BlockText(ls: seq<Line>, start: nat, mid: nat, end: nat)
    requires start < mid <= end <= |ls| && ls[mid - 1] != Blank && AllBlank(ls[mid..end])
    ensures AllLines(TrimEnd(Text(ls[start..end], Blank))) == ls[start..mid]
  {
    hide TrimEnd, AllLines;
    SliceSplit(ls, start, mid, end);
    TrimmedBlock(ls[start..mid], ls[mid..end]);
  }

  lemma {:induction false} TrimmedBlock(body: seq<Line>, blanks: seq<Line>)
    requires AllBlank(blanks) && body != [] && body[|body| - 1] != Blank
    ensures AllLines(TrimEnd(Text(body + blanks, Blank))) == body
    decreases |blanks|
  {
    var t := body + blanks;
    if blanks == [] {
      assert t == body;
    } else {
      var fewer := blanks[..|blanks| - 1];
      assert t[..|t| - 1] == body + fewer && t[|t| - 1] == Blank;
      TrimmedBlock(body, fewer);
    }
  }

  // ----- What excision does to the blocks

  function Without<T>(s: seq<T>, k: nat): seq<T>
    requires k < |s|
  {
    s[..k] + s[k + 1..]
  }

  lemma {:induction false} CommentsHoldNothing(c: seq<Line>, prev: Line)
    requires AllComments(c)
    ensures Blocks(c, prev) == []
  {
    if c != [] {
      CommentsHoldNothing(Init(c), prev);
    }
  }

  /** Lines `above + comments + run + sep + below`, the run being one of their runs. */
  datatype Pieces5 = Pieces5(above: seq<Line>, comments: seq<Line>, run: seq<Line>, sep: seq<Line>, below: seq<Line>) {
    function All(): seq<Line> {
      above + (comments + (run + (sep + below)))
    }

    predicate Valid() {
      && (above != [] ==> !IsComment(above[|above| - 1]))
      && AllComments(comments) && AllWas(run) && run != []
      && (comments == [] ==> !EndsInWas(above))
      && (sep == [] || sep == [Blank])
      && (sep == [] ==> !StartsWithWas(below))
    }

    /** The line directly above the run. */
    function Top(): Line {
      Above(above + comments, Blank)
    }
  }

  lemma PiecesBlocks(p: Pieces5)
    requires p.Valid()
    ensures Blocks(p.All(), Blank) ==
            Blocks(p.above, Blank) + [Block(TagOf(p.Top()), Entries(p.run))] + Blocks(p.below, Blank)
  {
    hide Blocks, AllComments, AllWas, IsComment, EndsInWas, StartsWithWas;
    var tail := p.run + (p.sep + p.below);
    var top := Above(p.above, Blank);
    TopIs(p);
    PiecesMeet(p);
    RunAndBelow(p.run, p.sep, p.below, p.Top());
    BlocksConcat(p.comments, tail, top);
    CommentsHoldNothing(p.comments, top);
    BlocksConcat(p.above, p.comments + tail, Blank);
    var one := [Block(TagOf(p.Top()), Entries(p.run))];
    assert [] + (one + Blocks(p.below, Blank)) == one + Blocks(p.below, Blank);
    Assoc(Blocks(p.above, Blank), one, Blocks(p.below, Blank));
  }

  /** No run of history lines crosses the borders above and below the comments. */
  lemma PiecesMeet(p: Pieces5)
    requires p.Valid()
    ensures var tail := p.run + (p.sep + p.below);
      !(EndsInWas(p.comments) && StartsWithWas(tail)) && !(EndsInWas(p.above) && StartsWithWas(p.comments + tail))
  {
  }

  lemma TopIs(p: Pieces5)
    ensures Above(p.comments, Above(p.above, Blank)) == p.Top()
  {
  }

  lemma RunAndBelow(run: seq<Line>, sep: seq<Line>, below: seq<Line>, top: Line)
    requires AllWas(run) && run != [] && (sep == [] || sep == [Blank]) && (sep == [] ==> !StartsWithWas(below))
    ensures Blocks(run + (sep + below), top) == [Block(TagOf(top), Entries(run))] + Blocks(below, Blank)
  {
    BlanksHoldNothing(sep, run[|run| - 1]);
    hide Blocks;
    var last := run[|run| - 1];
    assert Blocks(sep + below, last) == Blocks(below, Blank) by {
      BlocksConcat(sep, below, last);
      BlocksBelow(below, Above(sep, last), Blank);
    }
    OneRun(run, top);
    BlocksConcat(run, sep + below, top);
  }

  /** Cutting a block out removes exactly that block, except when it stood between a history line
    * directly above and one directly below: those two runs then become one. */
  lemma CutRemovesOneBlock(p: Pieces5)
    requires p.Valid()
    ensures var k := |Blocks(p.above, Blank)|;
      && k < |Blocks(p.All(), Blank)|
      && (Blocks(p.above + p.below, Blank) == Without(Blocks(p.All(), Blank), k)
          <==> !(EndsInWas(p.above) && StartsWithWas(p.below)))
  {
    hide Blocks;
    PiecesBlocks(p);
    var k, all := |Blocks(p.above, Blank)|, Blocks(p.All(), Blank);
    assert all[..k] == Blocks(p.above, Blank) && all[k + 1..] == Blocks(p.below, Blank);
    if EndsInWas(p.above) && StartsWithWas(p.below) {
      BlocksMeet(p.above, p.below, Blank);
    } else {
      BlocksConcat(p.above, p.below, Blank);
      BlocksBelow(p.below, Above(p.above, Blank), Blank);
    }
  }

  /** Between separated runs a cut never merges two of them, and leaves the rest separated. */
  lemma CutKeepsSeparation(p: Pieces5)
    requires p.Valid() && Separated(p.All(), Free)
    ensures !EndsInWas(p.above)
    ensures Separated(p.above + p.below, Free)
    ensures GapAfter(p.All(), Free) == Free ==> GapAfter(p.above + p.below, Free) == Free
  {
    var rest := p.sep + p.below;
    GapConcat(p.above, p.comments + (p.run + rest), Free);
    var g := GapAfter(p.above, Free);
    LastGap(p.above);
    GapConcat(p.comments, p.run + rest, g);
    GapOfComments(p.comments, g);
    GapConcat(p.run, rest, GapAfter(p.comments, g));
    GapOfWas(p.run, GapAfter(p.comments, g));
    GapConcat(p.sep, p.below, AtRun);
    var h := GapAfter(p.sep, AtRun);
    FreeIsBest(p.below, h);
    GapConcat(p.above, p.below, Free);
  }

  lemma LastGap(a: seq<Line>)
    ensures a == [] ==> GapAfter(a, Free) == Free
    ensures EndsInWas(a) ==> GapAfter(a, Free) == AtRun
    ensures a != [] && !EndsInWas(a) && !IsComment(a[|a| - 1]) ==> GapAfter(a, Free) == Free
  {
    if a != [] {
      assert a == a[..|a| - 1] + [a[|a| - 1]];
      GapConcat(a[..|a| - 1], [a[|a| - 1]], Free);
    }
  }

  // ----- excise_run on a whole text and above a key's own stack

  function SepEnd(h: seq<Line>, e: nat): nat {
    if e < |h| && h[e] == Blank then e + 1 else e
  }

  /** The pieces a run of `h` cuts it into. */
  function PiecesOf(h: seq<Line>, r: Run): Pieces5
    requires r.start <= r.end <= |h|
  {
    var b, e := BlockStart(h, r.start), SepEnd(h, r.end);
    Pieces5(h[..b], h[b..r.start], h[r.start..r.end], h[r.end..e], h[e..])
  }

  lemma PiecesAreValid(h: seq<Line>, r: Run)
    requires IsRun(h, r)
    ensures PiecesOf(h, r).Valid() && PiecesOf(h, r).All() == h
  {
    var b, e := BlockStart(h, r.start), SepEnd(h, r.end);
    FiveSlices(h, b, r.start, r.end, e);
    EdgesOfPieces(h, r);
  }

  lemma EdgesOfPieces(h: seq<Line>, r: Run)
    requires IsRun(h, r)
    ensures PiecesOf(h, r).Valid()
  {
    hide BlockStart;
    var p := PiecesOf(h, r);
    SliceHasLines(h, r);
    EndOfBlock(h, r);
    var b := BlockStart(h, r.start);
    assert p.above != [] ==> p.above[|p.above| - 1] == h[b - 1];
  }

  lemma EndOfBlock(h: seq<Line>, r: Run)
    requires IsRun(h, r)
    ensures var e := BlockEnd(h, r.end);
      && (h[r.end..e] == [] || h[r.end..e] == [Blank])
      && (e == r.end ==> !StartsWithWas(h[e..]))
  {
  }

  lemma SliceHasLines(h: seq<Line>, r: Run)
    requires IsRun(h, r)
    ensures AllWas(h[r.start..r.end]) && h[r.start..r.end] != []
    ensures AllComments(h[BlockStart(h, r.start)..r.start])
  {
  }

  lemma CutOfText(ls: seq<Line>, r: Run)
    requires r.start < r.end <= |ls|
    ensures var p, cut := PiecesOf(ls, r), CutAt(ls, r);
      && cut.above == p.above && cut.block == p.comments + p.run
      && cut.below == if p.below == [] then [Blank] else p.below
  {
    hide BlockStart;
    SliceSplit(ls, BlockStart(ls, r.start), r.start, r.end);
    if SepEnd(ls, r.end) == |ls| && BlockEnd(ls, r.end) < |ls| {
      assert ls[BlockEnd(ls, r.end)..] == [Blank];
    }
  }

  lemma CutAboveStack(h: seq<Line>, x: seq<Line>, r: Run)
    requires IsRun(h, r) && r.end < |h| && x != []
    ensures var p, cut := PiecesOf(h, r), CutAt(h + x, r);
      && cut.above == p.above && cut.block == p.comments + p.run && cut.below == p.below + x
  {
    SameBlockStart(h, x, r.start);
    var b, e := BlockStart(h, r.start), SepEnd(h, r.end);
    SliceSplit(h, b, r.start, r.end);
    SliceOfConcat(h, x, b, r.end);
    SliceOfConcat(h, x, 0, b);
    SliceOfConcat(h, x, e, e);
  }

  lemma {:induction false} SameBlockStart(h: seq<Line>, x: seq<Line>, s: nat)
    requires s <= |h|
    ensures BlockStart(h + x, s) == BlockStart(h, s)
  {
    if s > 0 && IsComment(h[s - 1]) {
      SameBlockStart(h, x, s - 1);
    }
  }

  /** Tidying a text, its unterminated last line included, changes no block and no separation. */
  lemma TidyingKeepsBlocks(t: Text)
    ensures Blocks(AllLines(Tidied(t)), Blank) == Blocks(AllLines(t), Blank)
    ensures Separated(AllLines(Tidied(t)), Free) <==> Separated(AllLines(t), Free)
  {
    var s := Squeezed(t.lines, 0);
    SqueezeKeepsBlocks(t.lines, Blank);
    assert Init(s + [t.tail]) == s && Init(t.lines + [t.tail]) == t.lines;
    SqueezeKeepsGaps(t.lines, 0, Free);
    GapConcat(s, [t.tail], Free);
    GapConcat(t.lines, [t.tail], Free);
  }

  /** The text `ExciseRun` returns for an existing run. */
  function Excised(t: Text, k: nat): Text
    requires k < |Runs(AllLines(t))|
  {
    var cut := CutAt(AllLines(t), RunAt(AllLines(t), k));
    Tidied(FromLines(cut.above + cut.below))
  }

  /** The block lines `ExciseRun` returns for an existing run. */
  function ExcisedBlock(t: Text, k: nat): seq<Line>
    requires k < |Runs(AllLines(t))|
  {
    CutAt(AllLines(t), RunAt(AllLines(t), k)).block
  }

  /** A block as it is cut out: comments, its tag if any last, above the history lines. */
  ghost predicate IsCutOf(lines: seq<Line>, comments: seq<Line>, b: Block) {
    && AllComments(comments) && lines == comments + WasLines(b.entries)
    && b.tag == TagOf(Above(comments, Blank))
  }

  lemma AboveTheRun(h: seq<Line>, r: Run)
    requires IsRun(h, r)
    ensures h[..r.start] == PiecesOf(h, r).above + PiecesOf(h, r).comments
    ensures AllComments(PiecesOf(h, r).comments)
  {
    SplitAt(h[..r.start], BlockStart(h, r.start));
  }

  lemma BlocksAbovePieces(h: seq<Line>, k: nat)
    requires k < |Runs(h)|
    ensures |Blocks(PiecesOf(h, RunAt(h, k)).above, Blank)| == k < |Blocks(h, Blank)|
  {
    hide Blocks, PiecesOf, Runs;
    var r := RunAt(h, k);
    var p := PiecesOf(h, r);
    BlocksAboveRun(h, k);
    AboveTheRun(h, r);
    BlocksConcat(p.above, p.comments, Blank);
    CommentsHoldNothing(p.comments, Above(p.above, Blank));
  }

  lemma TagOfPieces(h: seq<Line>, r: Run)
    requires IsRun(h, r)
    ensures UnsetTagAt(h, r.start) == TagOf(Above(PiecesOf(h, r).comments, Blank))
  {
    AboveTheRun(h, r);
    var p := PiecesOf(h, r);
    hide PiecesOf;
    var top := h[..r.start];
    if p.comments == [] {
      assert top == p.above;
      assert p.above != [] ==> !IsComment(p.above[|p.above| - 1]) by {
        PiecesAreValid(h, r);
      }
    } else {
      assert top[|top| - 1] == p.comments[|p.comments| - 1];
    }
  }

  lemma WasLinesOfEntries(w: seq<Line>)
    requires AllWas(w)
    ensures WasLines(Entries(w)) == w
  {
    hide WasLines, Entries;
    assert forall i | 0 <= i < |w| :: WasLines(Entries(w))[i] == w[i];
  }

  lemma PiecesOfBlock(h: seq<Line>, k: nat)
    requires k < |Runs(h)|
    ensures |Runs(h)| == |Blocks(h, Blank)|
    ensures var p := PiecesOf(h, RunAt(h, k));
      p.Valid() && p.All() == h && IsCutOf(p.comments + p.run, p.comments, Blocks(h, Blank)[k])
  {
    hide Blocks, Runs;
    var r := RunAt(h, k);
    PiecesAreValid(h, r);
    BlockOfRun(h, k);
    TagOfPieces(h, r);
    WasLinesOfEntries(PiecesOf(h, r).run);
  }

  /** Excision removes exactly the k-th block of a text, unless the block has a history line
    * directly above it and one directly below: then, and only then, neighbours merge. */
  lemma ExciseRemovesOneBlock(t: Text, k: nat)
    requires k < |Runs(AllLines(t))|
    ensures |Runs(AllLines(t))| == |Blocks(AllLines(t), Blank)|
    ensures var cut := CutAt(AllLines(t), RunAt(AllLines(t), k));
      Blocks(AllLines(Excised(t, k)), Blank) == Without(Blocks(AllLines(t), Blank), k)
      <==> !(EndsInWas(cut.above) && StartsWithWas(cut.below))
  {
    var ls := AllLines(t);
    var r := RunAt(ls, k);
    var p := PiecesOf(ls, r);
    hide Blocks, Runs, PiecesOf, CutAt, Tidied;
    PiecesOfBlock(ls, k);
    BlocksAbovePieces(ls, k);
    CutRemovesOneBlock(p);
    BlocksOfExcised(t, k);
    CutOfText(ls, r);
  }

  lemma BlocksOfExcised(t: Text, k: nat)
    requires k < |Runs(AllLines(t))|
    ensures var p := PiecesOf(AllLines(t), RunAt(AllLines(t), k));
      Blocks(AllLines(Excised(t, k)), Blank) == Blocks(p.above + p.below, Blank)
  {
    hide Blocks, Runs, PiecesOf, CutAt, BlockStart, Squeezed, AllLines, FromLines;
    var ls := AllLines(t);
    var r := RunAt(ls, k);
    var p, cut := PiecesOf(ls, r), CutAt(ls, r);
    CutOfText(ls, r);
    TidyingKeepsBlocks(FromLines(cut.above + cut.below));
    LinesOfFromLines(cut.above + cut.below);
    if p.below == [] {
      BlankBelow(p.above);
      assert p.above + p.below == p.above;
    }
  }

  lemma LinesOfFromLines(ls: seq<Line>)
    requires ls != []
    ensures AllLines(FromLines(ls)) == ls
  {
  }

  lemma BlankBelow(above: seq<Line>)
    ensures Blocks(above + [Blank], Blank) == Blocks(above, Blank)
  {
    BlanksHoldNothing([Blank], Above(above, Blank));
    hide *;
    BlocksConcat(above, [Blank], Blank);
    assert Blocks(above, Blank) + [] == Blocks(above, Blank);
  }
}
