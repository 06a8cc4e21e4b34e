/** The respawn budget: what the monitor is granted and what it stores. */
module TrayRespawns {
  import opened TraySlots
  import opened TraySupervisor
  import opened Wrappers

  // ----- Between two resets

  /** A tick that sees the supervised child gone on its own accord. */
  predicate SeesOwnExit(s: System, x: Step) {
    x.MonitorTicks? && x.poll == Exited(OnItsOwn) && s.cell.child.Some? && !s.cell.hidden
  }

  /** Steps that start a fresh budget: a show or the launch stores a child, or the child had stayed up
    * long enough. */
  predicate Resets(s: System, x: Step) {
    Shows(x) || (SeesOwnExit(s, x) && x.now - s.cell.spawnedAt >= STABLE_UPTIME)
  }

  predicate NoReset(s: System, xs: seq<Step>)
    requires Possible(s, xs)
    decreases |xs|
  {
    FirstStepIf(s, xs);
    xs == [] || (!Resets(s, xs[0]) && NoReset(Next(s, xs[0]), xs[1..]))
  }

  lemma FirstStepIf(s: System, xs: seq<Step>)
    ensures xs != [] && Possible(s, xs) ==> Enabled(s, xs[0]) && Possible(Next(s, xs[0]), xs[1..])
  {
    hide Next, Enabled;
  }

  lemma NoResetStep(s: System, xs: seq<Step>)
    requires xs != [] && Possible(s, xs) && NoReset(s, xs)
    ensures Enabled(s, xs[0]) && !Resets(s, xs[0]) && Possible(Next(s, xs[0]), xs[1..]) && NoReset(Next(s, xs[0]), xs[1..])
  {
    hide Next, Enabled, Resets;
  }

  lemma NoResetYet(s: System)
    ensures Possible(s, []) && NoReset(s, [])
  {
  }

  lemma {:induction false} NoResetExtended(s: System, xs: seq<Step>, x: Step)
    requires Possible(s, xs) && NoReset(s, xs) && Enabled(After(s, xs), x) && !Resets(After(s, xs), x)
    ensures Possible(s, xs + [x]) && NoReset(s, xs + [x])
    decreases |xs|
  {
    hide Next, Enabled, Resets;
    OneMore(s, xs, x);
    if xs == [] {
      assert xs + [x] == [x] && [x][1..] == [];
    } else {
      assert (xs + [x])[1..] == xs[1..] + [x];
      NoResetExtended(Next(s, xs[0]), xs[1..], x);
    }
  }

  /** What was granted since is what was charged since, within the budget. */
  predicate Charged(s: System, granted: int) {
    s.granted - s.cell.respawns == granted && s.cell.respawns <= MAX_RESPAWNS
  }

  lemma ChargedNext(s: System, x: Step, granted: int)
    requires Charged(s, granted) && Enabled(s, x) && !Resets(s, x)
    ensures Charged(Next(s, x), granted)
  {
  }

  /** Between two resets every respawn granted is charged, so at most three are granted. */
  lemma {:induction false} BudgetHolds(s: System, xs: seq<Step>, granted: int)
    requires Possible(s, xs) && NoReset(s, xs) && Charged(s, granted)
    ensures Charged(After(s, xs), granted)
    decreases |xs|
  {
    hide *;
    if xs != [] {
      FirstStep(s, xs);
      NoResetStep(s, xs);
      ChargedNext(s, xs[0], granted);
      BudgetHolds(Next(s, xs[0]), xs[1..], granted);
    } else {
      NoStep(s, xs);
    }
  }

  lemma FreshBudget(s: System, x: Step)
    requires Enabled(s, x) && Resets(s, x)
    ensures Charged(Next(s, x), s.granted)
  {
  }

  /** A child that stayed up long enough is always respawned. */
  lemma StableIsRespawned(s: System, x: Step)
    requires Enabled(s, x) && SeesOwnExit(s, x) && x.now - s.cell.spawnedAt >= STABLE_UPTIME
    ensures Next(s, x).granted == s.granted + 1 && Next(s, x).monitor == Delaying && !Next(s, x).cell.hidden
  {
  }

  lemma ExitIsDecided(s: System, x: Step, granted: int)
    requires Enabled(s, x) && SeesOwnExit(s, x) && !Resets(s, x) && Charged(s, granted)
    ensures var t := Next(s, x);
      if s.granted - granted < MAX_RESPAWNS
      then t.granted == s.granted + 1 && t.monitor == Delaying && !t.cell.hidden
      else t.granted == s.granted && t.monitor == Polling && t.cell.hidden
  {
  }

  /** The whole budget is there: after a reset, over any run without another, a child that exits on its
    * own is respawned if fewer than three respawns were granted since, and otherwise the supervisor
    * hides. */
  lemma BudgetIsUsed(s: System, reset: Step, xs: seq<Step>, x: Step)
    requires Enabled(s, reset) && Resets(s, reset)
    requires Possible(Next(s, reset), xs) && NoReset(Next(s, reset), xs)
    requires var end := After(Next(s, reset), xs); Enabled(end, x) && SeesOwnExit(end, x) && !Resets(end, x)
    ensures var end := After(Next(s, reset), xs);
      var t := Next(end, x);
      if end.granted - s.granted < MAX_RESPAWNS
      then t.granted == end.granted + 1 && t.monitor == Delaying && !t.cell.hidden
      else t.granted == end.granted && t.monitor == Polling && t.cell.hidden
  {
    hide *;
    FreshBudget(s, reset);
    BudgetHolds(Next(s, reset), xs, s.granted);
    ExitIsDecided(After(Next(s, reset), xs), x, s.granted);
  }

  // ----- Stores and grants

  /** A respawn was granted and neither stored nor given up. */
  predicate Pending(s: System) {
    s.monitor == Delaying || s.monitor == Holding
  }

  lemma TickGrants(c: Cell, poll: Poll, now: int)
    ensures var r := Tick(c, poll, now); r.respawn ==> !r.cell.hidden
  {
  }

  lemma PendingNext(s: System, x: Step)
    requires Enabled(s, x)
    ensures var t := Next(s, x);
      t.respawned + Count(Pending(t)) - t.granted <= s.respawned + Count(Pending(s)) - s.granted
  {
    hide Tick, Polled, AfterPoll, Stored, Fits;
    if x.MonitorTicks? {
      PolledKeeps(s, Tick(s.cell, x.poll, x.now).cell, x.poll);
    } else if x.ShowPolls? {
      PolledKeeps(s, Polled(s.cell, x.poll), x.poll);
    } else if x.Launch? || x.ShowStores? {
      StoredKeeps(s, x.now);
    }
  }

  lemma PolledKeeps(s: System, c: Cell, poll: Poll)
    ensures var t := AfterPoll(s, c, poll);
      && t.cell == c && t.respawned == s.respawned && t.granted == s.granted && t.monitor == s.monitor && t.shutdown == s.shutdown
  {
  }

  lemma StoredKeeps(s: System, now: int)
    ensures var t := Stored(s, now);
      && t.respawned == s.respawned && t.granted == s.granted && t.monitor == s.monitor && t.shutdown == s.shutdown
  {
  }

  /** From any state, over any run: the monitor stores at most as many children as it is granted,
    * plus one if a respawn was pending at the start. */
  lemma {:induction false} RespawnsAreGranted(s: System, xs: seq<Step>)
    requires Possible(s, xs)
    ensures var end := After(s, xs);
      end.respawned - s.respawned + Count(Pending(end)) <= end.granted - s.granted + Count(Pending(s))
    decreases |xs|
  {
    hide *;
    if xs != [] {
      FirstStep(s, xs);
      PendingNext(s, xs[0]);
      RespawnsAreGranted(Next(s, xs[0]), xs[1..]);
    } else {
      NoStep(s, xs);
    }
  }

  lemma CanStoreNext(s: System, x: Step)
    requires Enabled(s, x) && !Resets(s, x)
    ensures var t := Next(s, x);
      t.respawned + Count(CanStore(t)) - t.granted <= s.respawned + Count(CanStore(s)) - s.granted
  {
    hide Tick, Polled, AfterPoll, Fits;
    if x.MonitorTicks? {
      TickGrants(s.cell, x.poll, x.now);
      PolledKeeps(s, Tick(s.cell, x.poll, x.now).cell, x.poll);
    } else if x.ShowPolls? {
      PolledHides(s.cell, x.poll);
      PolledKeeps(s, Polled(s.cell, x.poll), x.poll);
    }
  }

  lemma PolledHides(c: Cell, poll: Poll)
    ensures Polled(c, poll).hidden == c.hidden
  {
  }

  lemma {:induction false} StoresAreGranted(s: System, xs: seq<Step>)
    requires Possible(s, xs) && NoReset(s, xs)
    ensures var end := After(s, xs);
      end.respawned + Count(CanStore(end)) - end.granted <= s.respawned + Count(CanStore(s)) - s.granted
    decreases |xs|
  {
    hide *;
    if xs != [] {
      FirstStep(s, xs);
      NoResetStep(s, xs);
      CanStoreNext(s, xs[0]);
      StoresAreGranted(Next(s, xs[0]), xs[1..]);
    } else {
      NoStep(s, xs);
    }
  }

  /** Between two resets the monitor stores at most what the budget had left, plus one if a respawn
    * from before the reset can still be carried out. */
  lemma StoresBetweenResets(s: System, xs: seq<Step>)
    requires Possible(s, xs) && NoReset(s, xs) && s.cell.respawns <= MAX_RESPAWNS
    ensures var stored := After(s, xs).respawned - s.respawned;
      && stored <= After(s, xs).granted - s.granted + Count(CanStore(s))
      && stored <= MAX_RESPAWNS - s.cell.respawns + Count(CanStore(s))
  {
    hide Possible, After, NoReset, CanStore;
    StoresAreGranted(s, xs);
    BudgetHolds(s, xs, s.granted - s.cell.respawns);
  }

  /** One step of a run that resets nothing. */
  lemma Grown(s: System, xs: seq<Step>, t: System, x: Step) returns (ys: seq<Step>)
    requires Leads(s, xs, t) && NoReset(s, xs) && Enabled(t, x) && !Resets(t, x)
    ensures Leads(s, ys, Next(t, x)) && NoReset(s, ys)
  {
    hide Enabled, Next, Possible, After, Resets, NoReset;
    NoResetExtended(s, xs, x);
    OneMore(s, xs, x);
    ys := xs + [x];
  }

  lemma ExtraTrace(s: System) returns (xs: seq<Step>)
    requires Guarded(s) && CanStore(s)
    ensures Possible(s, xs) && NoReset(s, xs)
    ensures After(s, xs).respawned == s.respawned + 1 && After(s, xs).granted == s.granted
  {
    hide Possible, After, NoReset;
    NowhereYet(s);
    NoResetYet(s);
    xs := [];
    var t := s;
    if s.monitor == Delaying {
      if s.cell.child.Some? {
        xs := Grown(s, xs, t, ShowStarts);
        t := Next(t, ShowStarts);
        xs := Grown(s, xs, t, ShowPolls(PollError, false));
        t := Next(t, ShowPolls(PollError, false));
      }
      xs := Grown(s, xs, t, MonitorChecks);
      t := Next(t, MonitorChecks);
    }
    xs := Grown(s, xs, t, MonitorStores(true, 0));
  }

  /** Some run without a reset stores more than it is granted if and only if a respawn granted before
    * can still be carried out. */
  lemma ExtraRespawn(s: System)
    requires Guarded(s)
    ensures (exists xs :: Possible(s, xs) && NoReset(s, xs) &&
                          After(s, xs).respawned - s.respawned > After(s, xs).granted - s.granted)
            <==> CanStore(s)
  {
    hide Possible, After, NoReset, CanStore;
    if CanStore(s) {
      var xs := ExtraTrace(s);
      assert After(s, xs).respawned - s.respawned > After(s, xs).granted - s.granted;
    } else {
      forall xs | Possible(s, xs) && NoReset(s, xs)
        ensures After(s, xs).respawned - s.respawned <= After(s, xs).granted - s.granted
      {
        StoresAreGranted(s, xs);
      }
    }
  }

  lemma RaceTrace() returns (xs: seq<Step>, t: System)
    ensures Leads(START, xs, t)
    ensures t.monitor == Delaying && !t.shutdown && t.cell == Cell(Some(1), 2, false, 0) && t.showsPolling == 1
    ensures t.exits.Keys == {0} && t.spawned == 2 && t.reaped == {0}
  {
    hide Possible, After;
    NowhereYet(START);
    var x1, x2, x3 := Launch(true, true, 0), Exits(0, OnItsOwn), MonitorTicks(Exited(OnItsOwn), 1);
    var x4, x5, x6 := ShowStarts, ShowPolls(Running, true), ShowStores(true, 2);
    xs := Extended(START, [], START, x1);
    var s1 := Next(START, x1);
    xs := Extended(START, xs, s1, x2);
    var s2 := Next(s1, x2);
    xs := Extended(START, xs, s2, x3);
    var s3 := Next(s2, x3);
    xs := Extended(START, xs, s3, x4);
    var s4 := Next(s3, x4);
    xs := Extended(START, xs, s4, x4);
    var s5 := Next(s4, x4);
    xs := Extended(START, xs, s5, x5);
    var s6 := Next(s5, x5);
    xs := Extended(START, xs, s6, x6);
    t := Next(s6, x6);
  }

  /** It does happen: a respawn is granted, a show stores a child on a fresh budget, that child dies,
    * another show's poll empties the slot, and then the old respawn is carried out. */
  lemma RespawnOutlivesReset() returns (before: seq<Step>, after: seq<Step>)
    ensures Possible(START, before) && Possible(After(START, before), after) && NoReset(After(START, before), after)
    ensures var shown := After(START, before);
      var end := After(shown, after);
      shown.cell.respawns == 0 && end.cell.respawns == 0 && end.granted == shown.granted && end.respawned == shown.respawned + 1
  {
    hide Possible, After, NoReset;
    var shown: System;
    before, shown := RaceTrace();
    NowhereYet(shown);
    NoResetYet(shown);
    var x1, x2, x4 := Exits(1, OnItsOwn), ShowPolls(Exited(OnItsOwn), false), MonitorStores(true, 3);
    after := Grown(shown, [], shown, x1);
    var s1 := Next(shown, x1);
    after := Grown(shown, after, s1, x2);
    var s2 := Next(s1, x2);
    after := Grown(shown, after, s2, MonitorChecks);
    var s3 := Next(s2, MonitorChecks);
    after := Grown(shown, after, s3, x4);
  }

  // ----- What a grant is for

  /** The processes known to have exited on their own. */
  function OwnExits(s: System): set<nat> {
    set pid | pid in s.reaped && pid in s.exits && s.exits[pid] == OnItsOwn
  }

  ghost predicate Accounted(s: System) {
    Guarded(s) && forall pid: nat :: Once(s, pid)
  }

  lemma AccountedNext(s: System, x: Step)
    requires Accounted(s) && Enabled(s, x)
    ensures Accounted(Next(s, x))
  {
    GuardedNext(s, x);
    hide Guarded, Enabled, Next, Once;
    forall pid: nat ensures Once(Next(s, x), pid) {
      OnceNext(s, x, pid);
    }
  }

  lemma OwnExitsGrow(s: System, x: Step)
    requires Enabled(s, x)
    ensures OwnExits(s) <= OwnExits(Next(s, x))
  {
    hide Tick, Polled;
  }

  lemma GrantIsForAnExit(s: System, poll: Poll, now: int)
    requires Accounted(s) && Enabled(s, MonitorTicks(poll, now)) && Tick(s.cell, poll, now).respawn
    ensures var pid := s.cell.child.value;
      poll == Exited(OnItsOwn) && pid !in OwnExits(s) && pid in OwnExits(Next(s, MonitorTicks(poll, now)))
  {
    assert Once(s, s.cell.child.value);
  }

  predicate Earned(s: System) {
    s.granted <= |OwnExits(s)|
  }

  lemma Fewer(a: set<nat>, b: set<nat>)
    requires a <= b
    ensures |a| <= |b| && (a != b ==> |a| < |b|)
  {
    assert b == a + (b - a);
  }

  lemma EarnedNext(s: System, x: Step)
    requires Accounted(s) && Earned(s) && Enabled(s, x)
    ensures Earned(Next(s, x))
  {
    OwnExitsGrow(s, x);
    Fewer(OwnExits(s), OwnExits(Next(s, x)));
    if x.MonitorTicks? && Tick(s.cell, x.poll, x.now).respawn {
      GrantIsForAnExit(s, x.poll, x.now);
    }
    hide OwnExits, Tick, Accounted;
  }

  /** Over every run each respawn granted is for another process that exited on its own: a stand-down
    * or a SIGTERM costs nothing. */
  lemma {:induction false} GrantsAreEarned(s: System, xs: seq<Step>)
    requires Accounted(s) && Earned(s) && Possible(s, xs)
    ensures Accounted(After(s, xs)) && Earned(After(s, xs))
    decreases |xs|
  {
    hide *;
    if xs != [] {
      FirstStep(s, xs);
      AccountedNext(s, xs[0]);
      EarnedNext(s, xs[0]);
      GrantsAreEarned(Next(s, xs[0]), xs[1..]);
    } else {
      NoStep(s, xs);
    }
  }

  /** Where runs start. */
  lemma StartIsEarned()
    ensures Accounted(START) && Earned(START) && !Pending(START)
  {
  }
}
