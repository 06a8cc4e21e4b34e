/** The link-quality notifications of `src/client.rs`: alternating, rate-limited, never lost.
  *
  * Times are in nanoseconds on the monotonic clock.
  */
module LinkMonitor {
  import opened Wrappers

  const LINK_RTT_WARN: int := 50_000_000
  const LINK_LOSS_WARN: real := 0.02
  const LINK_NOTIFY_COOLDOWN: int := 300_000_000_000

  datatype Verdict = Steady | Degraded | Recovered

  datatype Sample = Sample(rtt: int, lossRate: real, at: int)

  datatype State = State(degraded: bool, lastNotification: Option<int>)

  const FRESH := State(false, None)

  predicate Bad(x: Sample) {
    x.rtt > LINK_RTT_WARN || x.lossRate > LINK_LOSS_WARN
  }

  predicate CoolingDown(st: State, at: int) {
    st.lastNotification.Some? && st.lastNotification.value + LINK_NOTIFY_COOLDOWN > at
  }

  function Checked(st: State, x: Sample): (State, Verdict) {
    if Bad(x) == st.degraded || CoolingDown(st, x.at) then (st, Steady)
    else (State(Bad(x), Some(x.at)), if Bad(x) then Degraded else Recovered)
  }

  // ----- Runs

  datatype Report = Report(verdict: Verdict, at: int)

  /** The state after the samples. */
  function After(st: State, xs: seq<Sample>): State {
    if xs == [] then st else Checked(After(st, xs[..|xs| - 1]), xs[|xs| - 1]).0
  }

  /** The notifications shown for the samples. */
  function Reports(st: State, xs: seq<Sample>): seq<Report> {
    if xs == [] then []
    else
      var x := xs[|xs| - 1];
      var v := Checked(After(st, xs[..|xs| - 1]), x).1;
      Reports(st, xs[..|xs| - 1]) + if v == Steady then [] else [Report(v, x.at)]
  }

  /** The state remembers the last report. */
  predicate Remembers(st: State, rs: seq<Report>) {
    if rs == [] then st == FRESH
    else st.lastNotification == Some(rs[|rs| - 1].at) && (st.degraded <==> rs[|rs| - 1].verdict == Degraded)
  }

  predicate Alternate(rs: seq<Report>) {
    forall k | 0 <= k < |rs| :: rs[k].verdict == if k % 2 == 0 then Degraded else Recovered
  }

  predicate Spaced(rs: seq<Report>) {
    forall k | 0 < k < |rs| :: rs[k].at - rs[k - 1].at >= LINK_NOTIFY_COOLDOWN
  }

  lemma OneMore(st: State, rs: seq<Report>, x: Sample)
    requires Remembers(st, rs) && Alternate(rs) && Spaced(rs)
    ensures var (st', v) := Checked(st, x);
      var rs' := rs + if v == Steady then [] else [Report(v, x.at)];
      Remembers(st', rs') && Alternate(rs') && Spaced(rs')
  {
    var v := Checked(st, x).1;
    if v == Steady {
      assert rs + [] == rs;
    } else if rs != [] {
      assert rs[|rs| - 1].verdict == if (|rs| - 1) % 2 == 0 then Degraded else Recovered;
    }
  }

  /** Reports alternate, starting with Degraded, and neighbours are a cooldown apart. */
  lemma {:induction false} ReportsAlternate(xs: seq<Sample>)
    ensures Alternate(Reports(FRESH, xs)) && Spaced(Reports(FRESH, xs))
    ensures Remembers(After(FRESH, xs), Reports(FRESH, xs))
  {
    hide Alternate, Spaced, Remembers, Checked;
    if xs != [] {
      var before := xs[..|xs| - 1];
      ReportsAlternate(before);
      OneMore(After(FRESH, before), Reports(FRESH, before), xs[|xs| - 1]);
    } else {
      NoReports();
    }
  }

  lemma NoReports()
    ensures Alternate([]) && Spaced([]) && Remembers(FRESH, [])
  {
  }

  lemma {:induction false} FarApart(rs: seq<Report>, i: nat, j: nat)
    requires Spaced(rs) && i <= j < |rs|
    ensures rs[j].at - rs[i].at >= (j - i) * LINK_NOTIFY_COOLDOWN
    decreases j - i
  {
    if i < j {
      FarApart(rs, i, j - 1);
    }
  }

  /** Any window of length `t` holds at most 1 + t / cooldown reports. */
  lemma WindowsAreBounded(xs: seq<Sample>, i: nat, j: nat, start: int, t: nat)
    requires var rs := Reports(FRESH, xs); i <= j < |rs| && start <= rs[i].at && rs[j].at <= start + t
    ensures j - i + 1 <= 1 + t / LINK_NOTIFY_COOLDOWN
  {
    ReportsAlternate(xs);
    FarApart(Reports(FRESH, xs), i, j);
  }

  /** Less than five minutes after the last report. */
  predicate TooSoon(st: State, at: int) {
    st.lastNotification.Some? && at - st.lastNotification.value < 5 * 60 * 1_000_000_000
  }

  /** From any state, a condition that differs from what the user was last told is reported at the
    * first sample at or after the end of the cooldown, and at none before it. */
  lemma {:induction false} MismatchIsReported(st: State, xs: seq<Sample>)
    requires xs != [] && forall i | 0 <= i < |xs| :: OverThreshold(xs[i].rtt, xs[i].lossRate) != st.degraded
    requires forall i | 0 <= i < |xs| - 1 :: TooSoon(st, xs[i].at)
    ensures After(st, xs[..|xs| - 1]) == st && Reports(st, xs[..|xs| - 1]) == []
    ensures Reports(st, xs) ==
            if TooSoon(st, xs[|xs| - 1].at) then []
            else [Report(if st.degraded then Recovered else Degraded, xs[|xs| - 1].at)]
  {
    var before := xs[..|xs| - 1];
    if before != [] {
      MismatchIsReported(st, before);
    }
  }

  /** Whether a round trip took more than 50 ms or more than 2 % of the packets were lost. */
  predicate OverThreshold(rtt: int, lossRate: real) {
    rtt > 50 * 1_000_000 || lossRate * 100.0 > 2.0
  }

  /** Each report is of a sample: Degraded of one over a threshold, Recovered of one under both. */
  lemma {:induction false} ReportsAreTrue(st: State, xs: seq<Sample>, k: nat) returns (i: nat)
    requires k < |Reports(st, xs)|
    ensures i < |xs| && Reports(st, xs)[k].at == xs[i].at
    ensures Reports(st, xs)[k].verdict == if OverThreshold(xs[i].rtt, xs[i].lossRate) then Degraded else Recovered
  {
    var n := |xs| - 1;
    if k < |Reports(st, xs[..n])| {
      i := ReportsAreTrue(st, xs[..n], k);
    } else {
      i := n;
    }
  }

  /** A sample over a threshold is reported at once by a monitor that has reported nothing yet. */
  lemma FirstTroubleIsReported(xs: seq<Sample>, x: Sample)
    requires forall i | 0 <= i < |xs| :: !OverThreshold(xs[i].rtt, xs[i].lossRate)
    ensures Reports(FRESH, xs) == []
    ensures Reports(FRESH, xs + [x]) == if OverThreshold(x.rtt, x.lossRate) then [Report(Degraded, x.at)] else []
  {
    AllQuiet(xs);
    assert (xs + [x])[..|xs|] == xs;
  }

  lemma {:induction false} AllQuiet(xs: seq<Sample>)
    requires forall i | 0 <= i < |xs| :: !OverThreshold(xs[i].rtt, xs[i].lossRate)
    ensures Reports(FRESH, xs) == [] && After(FRESH, xs) == FRESH
  {
    if xs != [] {
      AllQuiet(xs[..|xs| - 1]);
    }
  }

  class Monitor {
    var degraded: bool
    var lastNotification: Option<int>

    constructor ()
      ensures Value() == FRESH
    {
      degraded, lastNotification := false, None;
    }

    function Value(): State
      reads this
    {
      State(degraded, lastNotification)
    }

    /** check: classifies one sample. */
    method Check(rtt: int, lossRate: real, now: int) returns (verdict: Verdict)
      modifies this
      ensures (Value(), verdict) == Checked(old(Value()), Sample(rtt, lossRate, now))
    {
      var bad := rtt > LINK_RTT_WARN || lossRate > LINK_LOSS_WARN;
      if bad == degraded {
        return Steady;
      }
      if lastNotification.Some? && lastNotification.value + LINK_NOTIFY_COOLDOWN > now {
        return Steady;
      }
      degraded := bad;
      lastNotification := Some(now);
      verdict := if bad then Degraded else Recovered;
    }
  }
}
