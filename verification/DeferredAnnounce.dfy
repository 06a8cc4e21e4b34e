/** The clipboard announcement deferred after a deactivation (`src/client.rs`).
  *
  * A deactivation arms a timer, an activation within the delay disarms it, and its expiry announces.
  * Times are in milliseconds on the monotonic clock.
  */
module DeferredAnnounce {
  import opened Wrappers

  const DEACTIVATE_ANNOUNCE_DELAY: int := 500

  /** `neverActive` until the connection has been active once; `fireAt` while a timer is armed. */
  datatype State = State(active: bool, neverActive: bool, fireAt: Option<int>)

  const CONNECTED := State(false, true, None)

  /** A Switch message, or the armed timer running out; the loop may get to it late. */
  datatype Step = Switch(enabled: bool, at: int) | Fires(at: int)

  predicate Enabled(st: State, x: Step) {
    x.Fires? ==> st.fireAt.Some? && st.fireAt.value <= x.at
  }

  /** Whether the step announces the local clipboard. */
  predicate Announces(st: State, x: Step) {
    match x
    case Switch(enabled, _) => enabled && st.fireAt.None? && st.neverActive
    case Fires(_) => !st.active
  }

  function Next(st: State, x: Step): State {
    match x
    case Switch(enabled, at) =>
      State(enabled, st.neverActive && !enabled, if enabled then None else Some(at + DEACTIVATE_ANNOUNCE_DELAY))
    case Fires(_) => st.(fireAt := None)
  }

  function After(st: State, xs: seq<Step>): State {
    if xs == [] then st else Next(After(st, xs[..|xs| - 1]), xs[|xs| - 1])
  }

  /** Each step was possible when it was taken. */
  predicate Possible(st: State, xs: seq<Step>) {
    xs == [] || (Possible(st, xs[..|xs| - 1]) && Enabled(After(st, xs[..|xs| - 1]), xs[|xs| - 1]))
  }

  function Announcements(st: State, xs: seq<Step>): nat {
    if xs == [] then 0
    else Announcements(st, xs[..|xs| - 1]) + if Announces(After(st, xs[..|xs| - 1]), xs[|xs| - 1]) then 1 else 0
  }

  function Deactivations(xs: seq<Step>): nat {
    if xs == [] then 0
    else Deactivations(xs[..|xs| - 1]) + if xs[|xs| - 1].Switch? && !xs[|xs| - 1].enabled then 1 else 0
  }

  function Count(b: bool): nat {
    if b then 1 else 0
  }

  /** An armed timer means the client is inactive, and owes the one announcement its deactivation may
    * cause; a first activation may cause one more. */
  predicate Bounded(st: State, announced: nat, deactivated: nat) {
    && (st.fireAt.Some? ==> !st.active)
    && announced + Count(st.fireAt.Some?) + Count(st.neverActive) <= deactivated + 1
  }

  lemma StepKeepsBound(st: State, x: Step, announced: nat, deactivated: nat)
    requires Bounded(st, announced, deactivated) && Enabled(st, x)
    ensures Bounded(Next(st, x), announced + Count(Announces(st, x)), deactivated + Count(x.Switch? && !x.enabled))
  {
  }

  /** An armed timer means the client is inactive, so an expiry announces, and never while active;
    * announcements number at most the deactivations and one first activation. */
  lemma {:induction false} RunsAreBounded(xs: seq<Step>)
    requires Possible(CONNECTED, xs)
    ensures Bounded(After(CONNECTED, xs), Announcements(CONNECTED, xs), Deactivations(xs))
  {
    if xs != [] {
      var n := |xs| - 1;
      RunsAreBounded(xs[..n]);
      StepKeepsBound(After(CONNECTED, xs[..n]), xs[n], Announcements(CONNECTED, xs[..n]), Deactivations(xs[..n]));
    }
  }

  /** What the user sees of an expiry: it announces, and the client is inactive then. */
  lemma ExpiryAnnounces(xs: seq<Step>, at: int)
    requires Possible(CONNECTED, xs) && Enabled(After(CONNECTED, xs), Fires(at))
    ensures Announces(After(CONNECTED, xs), Fires(at)) && !After(CONNECTED, xs).active
  {
    RunsAreBounded(xs);
  }

  predicate Activates(x: Step) {
    x.Switch? && x.enabled
  }

  lemma {:induction false} BeforeActivation(xs: seq<Step>)
    requires Possible(CONNECTED, xs)
    ensures After(CONNECTED, xs).neverActive <==> forall i | 0 <= i < |xs| :: !Activates(xs[i])
    ensures After(CONNECTED, xs).fireAt.Some? <==> xs != [] && xs[|xs| - 1].Switch? && !xs[|xs| - 1].enabled
  {
    if xs != [] {
      BeforeActivation(xs[..|xs| - 1]);
      assert forall i | 0 <= i < |xs| - 1 :: xs[i] == xs[..|xs| - 1][i];
    }
  }

  /** An activation announces if and only if it is the connection's first and does not directly follow a
    * deactivation, whose timer it would cancel. */
  lemma FirstActivationAnnounces(xs: seq<Step>, at: int)
    requires Possible(CONNECTED, xs)
    ensures Announces(After(CONNECTED, xs), Switch(true, at)) <==>
            (forall i | 0 <= i < |xs| :: !Activates(xs[i])) && (xs == [] || xs[|xs| - 1].Fires? || xs[|xs| - 1].enabled)
  {
    BeforeActivation(xs);
  }

  predicate Within(xs: seq<Step>, deadline: int) {
    forall i | 0 <= i < |xs| :: xs[i].at < deadline
  }

  lemma {:induction false} NothingFires(st: State, xs: seq<Step>, deadline: int)
    requires st.fireAt == Some(deadline) && Possible(st, xs) && Within(xs, deadline)
    requires forall i | 0 <= i < |xs| :: xs[i].Fires?
    ensures xs == []
  {
    if xs != [] {
      NothingFires(st, xs[..|xs| - 1], deadline);
    }
  }

  /** The key-release pair: a deactivation, whatever expiries are possible in between, and an
    * activation before the deadline announce nothing and leave no timer armed. */
  lemma {:induction false} PairIsSilent(st: State, at: int, between: seq<Step>, back: int)
    requires forall i | 0 <= i < |between| :: between[i].Fires?
    requires back < at + DEACTIVATE_ANNOUNCE_DELAY && Within(between, at + DEACTIVATE_ANNOUNCE_DELAY)
    requires Possible(Next(st, Switch(false, at)), between)
    ensures var away := Next(st, Switch(false, at));
      && !Announces(st, Switch(false, at))
      && Announcements(away, between + [Switch(true, back)]) == 0
      && After(away, between + [Switch(true, back)]) == State(true, false, None)
  {
    var away := Next(st, Switch(false, at));
    NothingFires(away, between, at + DEACTIVATE_ANNOUNCE_DELAY);
    var xs := [Switch(true, back)];
    assert between + xs == xs && xs[..0] == [];
    assert After(away, []) == away && Announcements(away, []) == 0;
  }

  /** Exactly one announcement follows a deactivation that nothing cancels before it is due. */
  lemma {:induction false} RealSwitchAnnouncesOnce(xs: seq<Step>, at: int, due: int)
    requires Possible(CONNECTED, xs) && due >= at + DEACTIVATE_ANNOUNCE_DELAY
    ensures var ys := xs + [Switch(false, at)];
      && Possible(CONNECTED, ys + [Fires(due)])
      && Announcements(CONNECTED, ys + [Fires(due)]) == Announcements(CONNECTED, xs) + 1
      && After(CONNECTED, ys + [Fires(due)]).fireAt.None?
  {
    var ys := xs + [Switch(false, at)];
    assert ys[..|ys| - 1] == xs && (ys + [Fires(due)])[..|ys|] == ys;
  }

  class Timer {
    var fireAt: Option<int>

    constructor ()
      ensures fireAt.None?
    {
      fireAt := None;
    }

    /** on_switch: a deactivation arms the timer, an activation cancels it; returns whether one was
      * pending. */
    method OnSwitch(enabled: bool, now: int, ghost st: State) returns (wasPending: bool)
      requires st.fireAt == fireAt
      modifies this
      ensures fireAt == Next(st, Switch(enabled, now)).fireAt
      ensures enabled ==> (Announces(st, Switch(true, now)) <==> st.neverActive && !wasPending)
    {
      wasPending := fireAt.Some?;
      fireAt := None;
      if !enabled {
        fireAt := Some(now + DEACTIVATE_ANNOUNCE_DELAY);
      }
    }

    /** take_expired: disarms, and tells whether the announcement should go out. */
    method TakeExpired(active: bool, now: int, ghost st: State) returns (announce: bool)
      requires st.fireAt == fireAt && st.active == active
      modifies this
      ensures fireAt == Next(st, Fires(now)).fireAt
      ensures announce <==> Announces(st, Fires(now))
    {
      fireAt := None;
      announce := !active;
    }
  }
}
