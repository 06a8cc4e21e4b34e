/** Runs of history lines together with the tag directly above them, if there is one.
  *
  * Such a run is a block; a tagged one is what an unset key left behind. The blocks of a text are
  * read off line by line, given the line that stands above the text, so that they can be put
  * together from those of its parts.
  */
module TaggedRuns {
  import opened HistoryRuns
  import opened HistoryText
  import opened Seqs
  import opened Wrappers

  datatype Block = Block(tag: Option<string>, entries: seq<WasEntry>)

  function TagOf(l: Line): Option<string> {
    if l.Tag? then Some(l.flag) else None
  }

  /** The line directly above what follows `ls`, `prev` being the line above `ls`. */
  function Above(ls: seq<Line>, prev: Line): Line {
    if ls == [] then prev else ls[|ls| - 1]
  }

  /** `bs` with one more history line: it extends the last block when that block is `open`. */
  function Grown(bs: seq<Block>, entry: WasEntry, open: bool, tag: Option<string>): seq<Block>
    requires open ==> bs != []
  {
    if open then bs[..|bs| - 1] + [Block(bs[|bs| - 1].tag, bs[|bs| - 1].entries + [entry])]
    else bs + [Block(tag, [entry])]
  }

  /** The blocks of `ls` in file order, `prev` being the line above. */
  function Blocks(ls: seq<Line>, prev: Line): (bs: seq<Block>)
    ensures EndsInWas(ls) ==> bs != []
  {
    if ls == [] then []
    else if !EndsInWas(ls) then Blocks(Init(ls), prev)
    else Grown(Blocks(Init(ls), prev), ls[|ls| - 1].entry, EndsInWas(Init(ls)), TagOf(Above(Init(ls), prev)))
  }

  /** unset_tag_at: the tag named by the line directly above a run. */
  function UnsetTagAt(ls: seq<Line>, start: nat): Option<string>
    requires start <= |ls|
  {
    TagOf(Above(ls[..start], Blank))
  }

  /** How one more line changes the runs and the blocks. */
  lemma NextLine(ls: seq<Line>)
    requires ls != []
    ensures var init, n := Init(ls), |ls| - 1;
      var rs, bs := Runs(init), Blocks(init, Blank);
      && |rs| == |bs| && (EndsInWas(init) ==> rs != [])
      && |Runs(ls)| == |Blocks(ls, Blank)|
      && (!EndsInWas(ls) ==> Runs(ls) == rs && Blocks(ls, Blank) == bs)
      && (EndsInWas(ls) && !EndsInWas(init) ==>
            Runs(ls) == rs + [Run(n, n + 1)] && Blocks(ls, Blank) == bs + [Block(TagOf(Above(init, Blank)), [ls[n].entry])])
      && (EndsInWas(ls) && EndsInWas(init) ==>
            var m := |rs| - 1;
            && Runs(ls) == rs[..m] + [Run(rs[m].start, n + 1)] && rs[m].end == n && IsRun(init, rs[m])
            && Blocks(ls, Blank) == bs[..m] + [Block(bs[m].tag, bs[m].entries + [ls[n].entry])])
  {
    SameCount(ls);
    SameCount(Init(ls));
    RunsAreRuns(Init(ls));
  }

  lemma RunStarts(ls: seq<Line>, k: nat)
    requires k < |Runs(ls)|
    ensures RunAt(ls, k).start < |ls|
  {
    assert IsRun(ls, RunAt(ls, k));
  }

  /** There are k blocks above the k-th run. */
  lemma {:induction false} BlocksAboveRun(ls: seq<Line>, k: nat)
    requires k < |Runs(ls)|
    ensures |Runs(ls)| == |Blocks(ls, Blank)|
    ensures Blocks(ls[..RunAt(ls, k).start], Blank) == Blocks(ls, Blank)[..k]
  {
    var init := Init(ls);
    NextLine(ls);
    hide Runs, Blocks, IsRun;
    var start := RunAt(ls, k).start;
    if k < |Runs(init)| {
      BlocksAboveRun(init, k);
      assert start == RunAt(init, k).start;
      assert ls[..start] == init[..start] by {
        RunStarts(ls, k);
      }
      assert Blocks(ls, Blank)[..k] == Blocks(init, Blank)[..k];
    } else {
      assert ls[..start] == init;
    }
  }

  /** The k-th block is the k-th run with the tag found above it. */
  lemma {:induction false} BlockOfRun(ls: seq<Line>, k: nat)
    requires k < |Runs(ls)|
    ensures |Runs(ls)| == |Blocks(ls, Blank)|
    ensures Blocks(ls, Blank)[k] == BlockAt(ls, RunAt(ls, k))
  {
    hide Runs, Blocks, BlockAt, Above, TagOf;
    var r := RunAt(ls, k);
    var init := Init(ls);
    NextLine(ls);
    if k < |Runs(init)| {
      BlockOfRun(init, k);
      var q := RunAt(init, k);
      if r == q {
        SameBlock(ls, r);
      } else {
        LongerBlock(ls, q);
      }
    } else {
      NewBlock(ls);
    }
  }

  /** The block a run stands for. */
  function BlockAt(ls: seq<Line>, r: Run): Block
    requires IsRun(ls, r)
  {
    Block(UnsetTagAt(ls, r.start), Entries(ls[r.start..r.end]))
  }

  lemma SameBlock(ls: seq<Line>, r: Run)
    requires ls != [] && IsRun(Init(ls), r) && IsRun(ls, r)
    ensures BlockAt(ls, r) == BlockAt(Init(ls), r)
  {
    SliceOfInit(ls, r.start, r.end);
    assert ls[..r.start] == Init(ls)[..r.start];
  }

  lemma LongerBlock(ls: seq<Line>, q: Run)
    requires ls != [] && IsRun(Init(ls), q) && q.end == |ls| - 1 && IsRun(ls, Run(q.start, |ls|))
    ensures var b := BlockAt(Init(ls), q);
      BlockAt(ls, Run(q.start, |ls|)) == Block(b.tag, b.entries + [ls[|ls| - 1].entry])
  {
    EntriesGrow(ls, q.start);
    assert ls[..q.start] == Init(ls)[..q.start];
  }

  lemma NewBlock(ls: seq<Line>)
    requires EndsInWas(ls) && IsRun(ls, Run(|ls| - 1, |ls|))
    ensures BlockAt(ls, Run(|ls| - 1, |ls|)) == Block(TagOf(Above(Init(ls), Blank)), [ls[|ls| - 1].entry])
  {
    EntriesOfOne(ls[|ls| - 1]);
    assert ls[|ls| - 1..|ls|] == [ls[|ls| - 1]];
  }

  lemma EntriesOfOne(l: Line)
    ensures l.Was? ==> Entries([l]) == [l.entry]
  {
  }

  lemma EntriesGrow(ls: seq<Line>, i: nat)
    requires i < |ls| && forall k | i <= k < |ls| :: ls[k].Was?
    ensures Entries(ls[i..|ls|]) == Entries(Init(ls)[i..|ls| - 1]) + [ls[|ls| - 1].entry]
  {
    assert Init(ls[i..|ls|]) == Init(ls)[i..|ls| - 1];
  }

  lemma {:induction false} SameCount(ls: seq<Line>)
    ensures |Runs(ls)| == |Blocks(ls, Blank)|
  {
    if ls != [] {
      SameCount(Init(ls));
    }
  }

  lemma GrownBelow(x: seq<Block>, y: seq<Block>, entry: WasEntry, open: bool, tag: Option<string>)
    requires open ==> y != []
    ensures Grown(x + y, entry, open, tag) == x + Grown(y, entry, open, tag)
  {
    if open {
      assert (x + y)[..|x + y| - 1] == x + y[..|y| - 1];
    }
  }

  /** Text pieces that do not meet inside a run contribute their blocks independently. */
  lemma {:induction false} BlocksConcat(a: seq<Line>, b: seq<Line>, prev: Line)
    requires !(EndsInWas(a) && StartsWithWas(b))
    ensures Blocks(a + b, prev) == Blocks(a, prev) + Blocks(b, Above(a, prev))
  {
    if b == [] {
      assert a + b == a;
    } else {
      assert Init(a + b) == a + Init(b);
      BlocksConcat(a, Init(b), prev);
      var top := Above(a, prev);
      assert Above(a + Init(b), prev) == Above(Init(b), top);
      if EndsInWas(b) {
        GrownBelow(Blocks(a, prev), Blocks(Init(b), top), b[|b| - 1].entry, EndsInWas(Init(b)), TagOf(Above(Init(b), top)));
      }
    }
  }

  /** Two runs that meet become one. */
  lemma {:induction false} BlocksMeet(a: seq<Line>, b: seq<Line>, prev: Line)
    requires EndsInWas(a) && StartsWithWas(b)
    ensures |Blocks(a + b, prev)| == |Blocks(a, prev)| + |Blocks(b, Blank)| - 1
  {
    assert Init(a + b) == a + Init(b);
    if |b| > 1 {
      BlocksMeet(a, Init(b), prev);
    } else {
      assert a + Init(b) == a;
    }
  }

  lemma {:induction false} OneRun(w: seq<Line>, prev: Line)
    requires w != [] && AllWas(w)
    ensures Blocks(w, prev) == [Block(TagOf(prev), Entries(w))]
    ensures Runs(w) == [Run(0, |w|)]
  {
    if |w| > 1 {
      OneRun(Init(w), prev);
    } else {
      assert Init(w) == [];
      assert Entries(w) == [w[0].entry];
    }
  }

  /** Only a tag in the line above matters, and only to a run at the very top. */
  lemma {:induction false} BlocksBelow(ls: seq<Line>, p: Line, q: Line)
    requires TagOf(p) == TagOf(q) || !StartsWithWas(ls)
    ensures Blocks(ls, p) == Blocks(ls, q)
  {
    if ls != [] {
      BlocksBelow(Init(ls), p, q);
    }
  }
}
