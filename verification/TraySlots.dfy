/** When the indicator's slot is empty, and what can still fill it. */
module TraySlots {
  import opened TraySupervisor
  import opened Wrappers

  // ----- Traces, one step at a time

  lemma {:induction false} OneMore(s: System, xs: seq<Step>, x: Step)
    requires Possible(s, xs) && Enabled(After(s, xs), x)
    ensures Possible(s, xs + [x]) && After(s, xs + [x]) == Next(After(s, xs), x)
    decreases |xs|
  {
    hide Enabled, Next;
    if xs == [] {
      assert xs + [x] == [x] && [x][1..] == [];
    } else {
      assert (xs + [x])[1..] == xs[1..] + [x];
      OneMore(Next(s, xs[0]), xs[1..], x);
    }
  }

  /** `xs` leads from `s` to `t`. */
  predicate Leads(s: System, xs: seq<Step>, t: System) {
    Possible(s, xs) && After(s, xs) == t
  }

  lemma NowhereYet(s: System)
    ensures Leads(s, [], s)
  {
  }

  lemma Extended(s: System, xs: seq<Step>, t: System, x: Step) returns (ys: seq<Step>)
    requires Leads(s, xs, t) && Enabled(t, x)
    ensures ys == xs + [x] && Leads(s, ys, Next(t, x))
  {
    hide Enabled, Next, Possible, After;
    OneMore(s, xs, x);
    ys := xs + [x];
  }

  // ----- Filling an empty slot

  /** A respawn is under way that nothing has called off. */
  predicate CanStore(s: System) {
    s.monitor == Holding || (s.monitor == Delaying && !s.shutdown && !s.cell.hidden)
  }

  predicate NoShow(xs: seq<Step>) {
    forall i | 0 <= i < |xs| :: !Shows(xs[i])
  }

  predicate Still(s: System) {
    s.cell.child.None? && !CanStore(s)
  }

  lemma StillNext(s: System, x: Step)
    requires Still(s) && Enabled(s, x) && !Shows(x)
    ensures Still(Next(s, x))
  {
  }

  lemma {:induction false} StaysStill(s: System, xs: seq<Step>)
    requires Still(s) && Possible(s, xs) && NoShow(xs)
    ensures Still(After(s, xs))
    decreases |xs|
  {
    hide *;
    if xs != [] {
      FirstStep(s, xs);
      FirstIsNoShow(xs);
      StillNext(s, xs[0]);
      StaysStill(Next(s, xs[0]), xs[1..]);
    } else {
      NoStep(s, xs);
    }
  }

  lemma FirstIsNoShow(xs: seq<Step>)
    requires xs != [] && NoShow(xs)
    ensures !Shows(xs[0]) && NoShow(xs[1..])
  {
  }

  lemma RespawnFills(s: System) returns (xs: seq<Step>)
    requires Guarded(s) && s.cell.child.None? && CanStore(s)
    ensures Possible(s, xs) && NoShow(xs) && After(s, xs).cell.child.Some?
  {
    hide Possible, After;
    xs := [];
    NowhereYet(s);
    var t := s;
    if s.monitor == Delaying {
      xs := Extended(s, xs, t, MonitorChecks);
      t := Next(t, MonitorChecks);
    }
    xs := Extended(s, xs, t, MonitorStores(true, 0));
  }

  /** An empty slot can be filled without a show or the launch if and only if a respawn is under way
    * that neither a hide nor the shutdown has called off. */
  lemma OnlyRespawnFills(s: System)
    requires Guarded(s) && s.cell.child.None?
    ensures (exists xs :: Possible(s, xs) && NoShow(xs) && After(s, xs).cell.child.Some?) <==> CanStore(s)
  {
    hide Possible, After, NoShow, CanStore;
    if CanStore(s) {
      var xs := RespawnFills(s);
    } else {
      forall xs | Possible(s, xs) && NoShow(xs) ensures After(s, xs).cell.child.None? {
        StaysStill(s, xs);
      }
    }
  }

  // ----- A visible slot that nothing refills

  /** Visible, empty, and no respawn to come: only a show, or the launch, fills it again. */
  predicate Stranded(s: System) {
    !s.cell.hidden && s.cell.child.None? && !CanStore(s)
  }

  /** The steps that strand a visible supervisor: a show's own poll finding the child gone, a poll
    * error, an exit the monitor sees once shutdown is set, and shutdown during the respawn delay. */
  predicate Strands(s: System, x: Step) {
    !s.cell.hidden &&
    match x
    case ShowPolls(poll, _) => s.cell.child.Some? && poll != Running && (s.monitor != Delaying || s.shutdown)
    case MonitorTicks(poll, now) =>
      s.cell.child.Some? &&
        (poll == PollError ||
         (poll == Exited(OnItsOwn) && s.shutdown && OnExit(s.cell.respawns, now - s.cell.spawnedAt).respawn))
    case DropFlags => s.cell.child.None? && s.monitor == Delaying
    case _ => false
  }

  /** A state that is not stranded becomes so at exactly those steps. */
  lemma StrandedExactly(s: System, x: Step)
    requires Guarded(s) && Enabled(s, x) && !Stranded(s)
    ensures Stranded(Next(s, x)) <==> Strands(s, x)
  {
  }

  /** It does happen: the child exits, a show reaps it before the monitor sees it, and then refuses
    * for want of a desktop session. No run brings the indicator back but by a show. */
  lemma StrandingHappens() returns (xs: seq<Step>)
    ensures Possible(START, xs) && Stranded(After(START, xs))
    ensures var s := After(START, xs); s.monitor == Polling && !s.shutdown && s.showsPolling == 0 && s.showsStoring == 0
    ensures forall ys | Possible(After(START, xs), ys) && NoShow(ys) :: After(After(START, xs), ys).cell.child.None?
  {
    xs := StrandingTrace();
    hide Possible, After, NoShow;
    forall ys | Possible(After(START, xs), ys) && NoShow(ys) ensures After(After(START, xs), ys).cell.child.None? {
      StaysStill(After(START, xs), ys);
    }
  }

  lemma StrandingTrace() returns (xs: seq<Step>)
    ensures Possible(START, xs) && Stranded(After(START, xs))
    ensures var s := After(START, xs); s.monitor == Polling && !s.shutdown && s.showsPolling == 0 && s.showsStoring == 0
  {
    hide Possible, After;
    NowhereYet(START);
    var x1, x2, x3, x4 := Launch(true, true, 0), Exits(0, OnItsOwn), ShowStarts, ShowPolls(Exited(OnItsOwn), false);
    xs := Extended(START, [], START, x1);
    var s1 := Next(START, x1);
    xs := Extended(START, xs, s1, x2);
    var s2 := Next(s1, x2);
    xs := Extended(START, xs, s2, x3);
    var s3 := Next(s2, x3);
    xs := Extended(START, xs, s3, x4);
  }

  // ----- After the drop

  /** The drop took the child and no show is on its way. */
  predicate Gone(s: System, spawned: nat) {
    && Guarded(s) && s.dropped && s.cell.hidden && s.cell.child.None?
    && s.showsPolling == 0 && s.showsStoring == 0 && s.spawned == spawned
  }

  lemma GoneNext(s: System, x: Step, spawned: nat)
    requires Gone(s, spawned) && Enabled(s, x)
    ensures Gone(Next(s, x), spawned)
  {
  }

  lemma {:induction false} StaysGone(s: System, xs: seq<Step>, spawned: nat)
    requires Gone(s, spawned) && Possible(s, xs)
    ensures Gone(After(s, xs), spawned)
    decreases |xs|
  {
    hide *;
    if xs != [] {
      FirstStep(s, xs);
      GoneNext(s, xs[0], spawned);
      StaysGone(Next(s, xs[0]), xs[1..], spawned);
    } else {
      NoStep(s, xs);
    }
  }

  lemma ShowFills(s: System) returns (xs: seq<Step>)
    requires Guarded(s) && s.dropped && s.cell.child.None? && (s.showsPolling > 0 || s.showsStoring > 0)
    ensures Possible(s, xs) && After(s, xs).cell.child.Some?
  {
    hide Possible, After;
    xs := [];
    NowhereYet(s);
    var t := s;
    if s.showsStoring == 0 {
      xs := Extended(s, xs, t, ShowPolls(Running, true));
      t := Next(t, ShowPolls(Running, true));
    }
    xs := Extended(s, xs, t, ShowStores(true, 0));
  }

  /** Once the drop took the child, nothing is spawned and the slot stays empty in every run if and
    * only if no show passed its shutdown check before and is still on its way. */
  lemma DropIsFinal(s: System)
    requires Guarded(s) && s.dropped && s.cell.hidden && s.cell.child.None?
    ensures (forall xs | Possible(s, xs) :: After(s, xs).cell.child.None? && After(s, xs).spawned == s.spawned)
            <==> s.showsPolling == 0 && s.showsStoring == 0
  {
    hide Possible, After;
    if s.showsPolling == 0 && s.showsStoring == 0 {
      forall xs | Possible(s, xs) ensures After(s, xs).cell.child.None? && After(s, xs).spawned == s.spawned {
        StaysGone(s, xs, s.spawned);
      }
    } else {
      var xs := ShowFills(s);
    }
  }

  lemma ShowOnItsWay() returns (xs: seq<Step>, t: System)
    ensures Leads(START, xs, t) && t == START.(showsStoring := 1)
  {
    hide Possible, After;
    NowhereYet(START);
    xs := Extended(START, [], START, ShowStarts);
    var s1 := Next(START, ShowStarts);
    xs := Extended(START, xs, s1, ShowPolls(Running, true));
    t := Next(s1, ShowPolls(Running, true));
  }

  lemma DropInBetween() returns (xs: seq<Step>, t: System)
    ensures Leads(START, xs, t)
    ensures t == START.(showsStoring := 1, shutdown := true, dropped := true, cell := START.cell.(hidden := true))
  {
    hide Possible, After;
    xs, t := ShowOnItsWay();
    xs := Extended(START, xs, t, DropFlags);
    t := Next(t, DropFlags);
    xs := Extended(START, xs, t, DropTakes);
    t := Next(t, DropTakes);
  }

  lemma LateStore(t: System)
    requires LockFree(t) && t.showsStoring > 0
    ensures Enabled(t, ShowStores(true, 0))
    ensures var end := Next(t, ShowStores(true, 0)); end.dropped == t.dropped && end.cell.child == Some(t.spawned) && !end.cell.hidden
  {
  }

  lemma Reached(s: System, xs: seq<Step>, t: System)
    requires Leads(s, xs, t)
    ensures Possible(s, xs) && After(s, xs) == t
  {
  }

  /** A show that passed its shutdown check before the drop can fill the slot after it: only the
    * monitor is kept from that. */
  lemma ShowOutlivesDrop() returns (xs: seq<Step>)
    ensures Possible(START, xs)
    ensures var end := After(START, xs); end.dropped && end.cell.child == Some(0) && !end.cell.hidden
  {
    hide Possible, After, Leads, Next, Enabled;
    var t: System;
    xs, t := DropInBetween();
    LateStore(t);
    xs := Extended(START, xs, t, ShowStores(true, 0));
    Reached(START, xs, Next(t, ShowStores(true, 0)));
  }

  // ----- The monitor's last section and the shutdown flag

  predicate NoMonitorStore(xs: seq<Step>) {
    forall i | 0 <= i < |xs| :: !xs[i].MonitorStores?
  }

  lemma HoldingNext(s: System, x: Step)
    requires s.monitor == Holding && Enabled(s, x) && !x.MonitorStores?
    ensures Next(s, x).monitor == Holding && (Next(s, x).shutdown <==> s.shutdown || x == DropFlags)
  {
  }

  lemma {:induction false} HoldingUntilStore(s: System, xs: seq<Step>)
    requires s.monitor == Holding && Possible(s, xs) && NoMonitorStore(xs)
    ensures After(s, xs).monitor == Holding && (After(s, xs).shutdown <==> s.shutdown || DropFlags in xs)
    decreases |xs|
  {
    hide Next, Enabled;
    if xs != [] {
      FirstStep(s, xs);
      HoldingNext(s, xs[0]);
      assert xs == [xs[0]] + xs[1..];
      HoldingUntilStore(Next(s, xs[0]), xs[1..]);
    }
  }

  /** The monitor stores with shutdown set exactly when the flag was set between its check and its
    * store. */
  lemma StoresInShutdown(s: System, xs: seq<Step>, spawns: bool, now: int)
    requires Enabled(s, MonitorChecks) && Next(s, MonitorChecks).monitor == Holding
    requires Possible(Next(s, MonitorChecks), xs) && NoMonitorStore(xs)
    ensures var end := After(Next(s, MonitorChecks), xs);
      Enabled(end, MonitorStores(spawns, now)) && (end.shutdown <==> DropFlags in xs)
  {
    hide Possible, After;
    HoldingUntilStore(Next(s, MonitorChecks), xs);
  }

  lemma StoreInShutdownHappens() returns (xs: seq<Step>)
    ensures Possible(START, xs)
    ensures var end := After(START, xs); end.shutdown && !end.dropped && end.respawned == 1 && end.cell.child == Some(1)
  {
    hide Possible, After;
    NowhereYet(START);
    var x1, x2, x3 := Launch(true, true, 0), Exits(0, OnItsOwn), MonitorTicks(Exited(OnItsOwn), 1);
    var x4, x5, x6 := MonitorChecks, DropFlags, MonitorStores(true, 2);
    xs := Extended(START, [], START, x1);
    var s1 := Next(START, x1);
    xs := Extended(START, xs, s1, x2);
    var s2 := Next(s1, x2);
    xs := Extended(START, xs, s2, x3);
    var s3 := Next(s2, x3);
    xs := Extended(START, xs, s3, x4);
    var s4 := Next(s3, x4);
    xs := Extended(START, xs, s4, x5);
    var s5 := Next(s4, x5);
    xs := Extended(START, xs, s5, x6);
  }
}
