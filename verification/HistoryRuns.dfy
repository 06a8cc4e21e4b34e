/** The runs of history lines of a text, as `scan_runs` of `src/config.rs` finds them. */
module HistoryRuns {
  import opened HistoryText
  import opened Wrappers

  /** A maximal run: lines `start..end` of a text. */
  datatype Run = Run(start: nat, end: nat)

  predicate EndsInWas(ls: seq<Line>) {
    ls != [] && ls[|ls| - 1].Was?
  }

  predicate StartsWithWas(ls: seq<Line>) {
    ls != [] && ls[0].Was?
  }

  /** The runs of `ls` in file order: each history line extends the run that ends above it. */
  function Runs(ls: seq<Line>): (rs: seq<Run>)
    ensures EndsInWas(ls) ==> rs != []
  {
    if ls == [] then []
    else if !EndsInWas(ls) then Runs(Init(ls))
    else if EndsInWas(Init(ls)) then
      var rs := Runs(Init(ls));
      rs[..|rs| - 1] + [Run(rs[|rs| - 1].start, |ls|)]
    else Runs(Init(ls)) + [Run(|ls| - 1, |ls|)]
  }

  /** What makes `r` one of the runs of `ls`: history lines only, and no longer in either direction. */
  ghost predicate IsRun(ls: seq<Line>, r: Run) {
    && r.start < r.end <= |ls|
    && (forall i | r.start <= i < r.end :: ls[i].Was?)
    && (r.start == 0 || !ls[r.start - 1].Was?)
    && (r.end == |ls| || !ls[r.end].Was?)
  }

  ghost predicate InOrder(rs: seq<Run>) {
    forall i, j | 0 <= i < j < |rs| :: rs[i].end < rs[j].start
  }

  lemma SameRun(ls: seq<Line>, r: Run)
    requires ls != [] && IsRun(Init(ls), r) && (r.end < |ls| - 1 || !EndsInWas(ls))
    ensures IsRun(ls, r)
  {
  }

  lemma LongerRun(ls: seq<Line>, r: Run)
    requires ls != [] && IsRun(Init(ls), r) && r.end == |ls| - 1 && EndsInWas(ls)
    ensures IsRun(ls, Run(r.start, |ls|))
  {
  }

  ghost predicate AreRuns(ls: seq<Line>, rs: seq<Run>) {
    && (forall k | 0 <= k < |rs| :: IsRun(ls, rs[k]))
    && InOrder(rs)
    && (EndsInWas(ls) ==> rs != [] && rs[|rs| - 1].end == |ls|)
  }

  lemma RunsKept(ls: seq<Line>, rs: seq<Run>)
    requires ls != [] && !EndsInWas(ls) && AreRuns(Init(ls), rs)
    ensures AreRuns(ls, rs)
  {
    forall k | 0 <= k < |rs| ensures IsRun(ls, rs[k]) {
      SameRun(ls, rs[k]);
    }
  }

  lemma LastRunGrows(ls: seq<Line>, rs: seq<Run>)
    requires EndsInWas(ls) && EndsInWas(Init(ls)) && AreRuns(Init(ls), rs)
    ensures AreRuns(ls, rs[..|rs| - 1] + [Run(rs[|rs| - 1].start, |ls|)])
  {
    var m := |rs| - 1;
    LongerRun(ls, rs[m]);
    forall k | 0 <= k < m ensures IsRun(ls, rs[k]) {
      assert rs[k].end < rs[m].start;
      SameRun(ls, rs[k]);
    }
  }

  lemma RunAdded(ls: seq<Line>, rs: seq<Run>)
    requires EndsInWas(ls) && !EndsInWas(Init(ls)) && AreRuns(Init(ls), rs)
    ensures AreRuns(ls, rs + [Run(|ls| - 1, |ls|)])
  {
    forall k | 0 <= k < |rs| ensures IsRun(ls, rs[k]) && rs[k].end < |ls| - 1 {
      assert IsRun(Init(ls), rs[k]) && Init(ls)[rs[k].end - 1].Was?;
      SameRun(ls, rs[k]);
    }
  }

  lemma {:induction false} RunsAreRuns(ls: seq<Line>)
    ensures AreRuns(ls, Runs(ls))
  {
    if ls != [] {
      RunsAreRuns(Init(ls));
      hide AreRuns;
      if !EndsInWas(ls) {
        RunsKept(ls, Runs(Init(ls)));
      } else if EndsInWas(Init(ls)) {
        LastRunGrows(ls, Runs(Init(ls)));
      } else {
        RunAdded(ls, Runs(Init(ls)));
      }
    }
  }

  /** A run of the lines above is a run still, or grows by the last line. */
  lemma RunStays(ls: seq<Line>, k: nat)
    requires ls != [] && k < |Runs(Init(ls))|
    ensures k < |Runs(ls)|
    ensures Runs(ls)[k].start == Runs(Init(ls))[k].start && Runs(ls)[k].end >= Runs(Init(ls))[k].end
  {
    RunsAreRuns(Init(ls));
  }

  lemma LastRun(ls: seq<Line>)
    requires EndsInWas(ls)
    ensures Runs(ls) != [] && Runs(ls)[|Runs(ls)| - 1].start < |ls| == Runs(ls)[|Runs(ls)| - 1].end
  {
    RunsAreRuns(ls);
  }

  /** The run a history line belongs to. */
  function RunOf(ls: seq<Line>, i: nat): (k: nat)
    requires i < |ls| && ls[i].Was?
    ensures k < |Runs(ls)| && Runs(ls)[k].start <= i < Runs(ls)[k].end
  {
    hide Runs;
    if i == |ls| - 1 then
      LastRun(ls);
      |Runs(ls)| - 1
    else
      var k := RunOf(Init(ls), i);
      RunStays(ls, k);
      k
  }

  /** The runs are exactly the maximal ones, disjoint and in file order. */
  lemma RunsAreMaximal(ls: seq<Line>)
    ensures forall r :: r in Runs(ls) <==> IsRun(ls, r)
    ensures InOrder(Runs(ls))
  {
    RunsAreRuns(ls);
    forall r | IsRun(ls, r) ensures r in Runs(ls) {
      OneRunAt(ls, r, Runs(ls)[RunOf(ls, r.start)]);
    }
  }

  lemma OneRunAt(ls: seq<Line>, r: Run, q: Run)
    requires IsRun(ls, r) && IsRun(ls, q) && q.start <= r.start < q.end
    ensures r == q
  {
  }

  function RunAt(ls: seq<Line>, k: nat): (r: Run)
    requires k < |Runs(ls)|
    ensures IsRun(ls, r)
  {
    RunsAreRuns(ls);
    Runs(ls)[k]
  }

  /** scan_runs: one pass over the lines, the run in progress carried along. */
  method ScanRuns(ls: seq<Line>) returns (runs: seq<Run>)
    ensures runs == Runs(ls)
  {
    runs := [];
    var current: Option<Run> := None;
    for offset := 0 to |ls|
      invariant current.Some? <==> EndsInWas(ls[..offset])
      invariant Runs(ls[..offset]) == match current case Some(r) => runs + [r] case None => runs
    {
      assert Init(ls[..offset + 1]) == ls[..offset];
      if ls[offset].Was? {
        current := match current
          case Some(r) => Some(Run(r.start, offset + 1))
          case None => Some(Run(offset, offset + 1));
      } else {
        if current.Some? {
          runs := runs + [current.value];
        }
        current := None;
      }
    }
    assert ls[..|ls|] == ls;
    if current.Some? {
      runs := runs + [current.value];
    }
  }
}
