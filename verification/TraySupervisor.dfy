/** The tray indicator's supervisor (`src/indicator_spawn.rs`). */
module TraySupervisor {
  import opened Wrappers

  // A monitor task, `hide`, `show`, `launch` and the guard's drop share one record behind a mutex.
  // Each critical section is one step, except the monitor's last one, which holds the lock from its
  // check to its store so that the unguarded shutdown flag can change in between. Child exits and
  // time are the environment.

  const MAX_RESPAWNS: nat := 3
  /** Milliseconds an indicator must stay up to count as stable. */
  const STABLE_UPTIME: int := 600_000

  datatype ChildExit = Terminated | StoodDown | OnItsOwn

  /** What waiting on the child without blocking says. */
  datatype Poll = Running | Exited(how: ChildExit) | PollError

  /** The shared record: the child in the slot, and the bounded respawn bookkeeping. */
  datatype Cell = Cell(child: Option<nat>, spawnedAt: int, hidden: bool, respawns: nat)

  // ----- Critical sections as functions of the record

  datatype Grant = Grant(respawns: nat, respawn: bool)

  /** RespawnPolicy::on_exit. */
  function OnExit(respawns: nat, uptime: int): Grant {
    var spent := if uptime >= STABLE_UPTIME then 0 else respawns;
    if spent >= MAX_RESPAWNS then Grant(spent, false) else Grant(spent + 1, true)
  }

  datatype Reaction = Reaction(cell: Cell, respawn: bool)

  /** exit_action: park, give up, or respawn after the delay. */
  function ExitAction(c: Cell, exit: ChildExit, uptime: int): Reaction {
    if exit != OnItsOwn then Reaction(c.(hidden := true), false)
    else
      var g := OnExit(c.respawns, uptime);
      Reaction(c.(respawns := g.respawns, hidden := c.hidden || !g.respawn), g.respawn)
  }

  /** One monitor tick: observe_exit and exit_action under one acquisition. */
  function Tick(c: Cell, poll: Poll, now: int): Reaction {
    if c.hidden || c.child.None? then Reaction(c, false)
    else match poll
      case Running => Reaction(c, false)
      case PollError => Reaction(c.(child := None), false)
      case Exited(how) => ExitAction(c.(child := None), how, now - c.spawnedAt)
  }

  /** child_running: an exited child and a poll error both empty the slot. */
  function Polled(c: Cell, poll: Poll): Cell {
    if c.child.Some? && poll != Running then c.(child := None) else c
  }

  /** store_fresh_child: a fresh budget, and visible. */
  function StoreFresh(pid: nat, now: int): Cell {
    Cell(Some(pid), now, false, 0)
  }

  // ----- The system

  /** `Holding`: the monitor passed its last check and still has the lock. */
  datatype Monitor = NotStarted | Polling | Delaying | Holding | Ended

  /** `showsPolling` and `showsStoring` count the show requests at those two points. Processes are
    * numbered as they are spawned; the sets say what became of those no longer in the slot. */
  datatype System = System(
    cell: Cell, shutdown: bool, dropped: bool, monitor: Monitor,
    showsPolling: nat, showsStoring: nat,
    spawned: nat, exits: map<nat, ChildExit>,
    reaping: set<nat>, reaped: set<nat>, orphaned: set<nat>, released: set<nat>,
    granted: nat, respawned: nat)

  const START := System(Cell(None, 0, false, 0), false, false, NotStarted, 0, 0, 0, map[], {}, {}, {}, {}, 0, 0)

  datatype Step =
    | Exits(pid: nat, how: ChildExit)
    | Launch(wanted: bool, spawns: bool, now: int)
    | HideTakes
    | HideReaps(pid: nat)
    | ShowStarts
    | ShowPolls(poll: Poll, wanted: bool)
    | ShowStores(spawns: bool, now: int)
    | DropFlags
    | DropTakes
    | MonitorTicks(poll: Poll, now: int)
    | MonitorStops
    | MonitorChecks
    | MonitorStores(spawns: bool, now: int)

  predicate Fits(s: System, poll: Poll) {
    s.cell.child.Some? ==>
      var pid := s.cell.child.value;
      (poll == Running ==> pid !in s.exits) && (poll.Exited? ==> pid in s.exits && s.exits[pid] == poll.how)
  }

  predicate LockFree(s: System) {
    s.monitor != Holding
  }

  predicate Enabled(s: System, x: Step) {
    match x
    case Exits(pid, _) => pid < s.spawned && pid !in s.exits && pid !in s.reaped
    case Launch(_, _, _) => LockFree(s) && s.monitor == NotStarted && !s.dropped
    case HideTakes => LockFree(s)
    case HideReaps(pid) => pid in s.reaping
    case ShowStarts => !s.shutdown
    case ShowPolls(poll, _) => LockFree(s) && s.showsPolling > 0 && Fits(s, poll)
    case ShowStores(_, _) => LockFree(s) && s.showsStoring > 0
    case DropFlags => !s.shutdown
    case DropTakes => LockFree(s) && s.shutdown && !s.dropped
    case MonitorTicks(poll, _) => s.monitor == Polling && Fits(s, poll)
    case MonitorStops => s.shutdown && (s.monitor == Polling || s.monitor == Delaying)
    case MonitorChecks => s.monitor == Delaying
    case MonitorStores(_, _) => s.monitor == Holding
  }

  function SlotSet(s: System): set<nat> {
    if s.cell.child.Some? then {s.cell.child.value} else {}
  }

  /** The child a poll took out of the slot: reaped when it had exited, else only let go. */
  function AfterPoll(s: System, c: Cell, poll: Poll): System {
    if c.child == s.cell.child then s.(cell := c)
    else if poll.Exited? then s.(cell := c, reaped := s.reaped + SlotSet(s))
    else s.(cell := c, released := s.released + SlotSet(s))
  }

  /** spawn_and_store: a prior child still in the slot is killed and reaped. */
  function Stored(s: System, now: int): System {
    s.(cell := StoreFresh(s.spawned, now), reaped := s.reaped + SlotSet(s), spawned := s.spawned + 1)
  }

  function Next(s: System, x: Step): System
    requires Enabled(s, x)
  {
    match x
    case Exits(pid, how) => s.(exits := s.exits[pid := how])
    case Launch(wanted, spawns, now) =>
      (if wanted && spawns then Stored(s, now) else s).(monitor := Polling)
    case HideTakes =>
      s.(cell := s.cell.(hidden := true, child := None), reaping := s.reaping + SlotSet(s))
    case HideReaps(pid) => s.(reaping := s.reaping - {pid}, reaped := s.reaped + {pid})
    case ShowStarts => s.(showsPolling := s.showsPolling + 1)
    case ShowPolls(poll, wanted) =>
      var c := Polled(s.cell, poll);
      var stores := c.child.None? && wanted;
      AfterPoll(s, c, poll).(showsPolling := s.showsPolling - 1,
                             showsStoring := s.showsStoring + if stores then 1 else 0)
    case ShowStores(spawns, now) =>
      (if spawns then Stored(s, now) else s).(showsStoring := s.showsStoring - 1)
    case DropFlags => s.(shutdown := true)
    case DropTakes =>
      s.(cell := s.cell.(hidden := true, child := None), orphaned := s.orphaned + SlotSet(s), dropped := true)
    case MonitorTicks(poll, now) =>
      var r := Tick(s.cell, poll, now);
      AfterPoll(s, r.cell, poll).(monitor := if r.respawn then Delaying else Polling,
                                  granted := s.granted + if r.respawn then 1 else 0)
    case MonitorStops => s.(monitor := Ended)
    case MonitorChecks =>
      s.(monitor := if s.shutdown || s.cell.hidden || s.cell.child.Some? then Polling else Holding)
    case MonitorStores(spawns, now) =>
      if spawns then
        s.(cell := s.cell.(child := Some(s.spawned), spawnedAt := now), spawned := s.spawned + 1,
           respawned := s.respawned + 1, monitor := Polling)
      else s.(cell := s.cell.(hidden := true), monitor := Polling)
  }

  // ----- Runs

  predicate Possible(s: System, xs: seq<Step>)
    decreases |xs|
  {
    xs == [] || (Enabled(s, xs[0]) && Possible(Next(s, xs[0]), xs[1..]))
  }

  function After(s: System, xs: seq<Step>): System
    requires Possible(s, xs)
    decreases |xs|
  {
    if xs == [] then s else After(Next(s, xs[0]), xs[1..])
  }

  lemma FirstStep(s: System, xs: seq<Step>)
    requires xs != [] && Possible(s, xs)
    ensures Enabled(s, xs[0]) && Possible(Next(s, xs[0]), xs[1..]) && After(s, xs) == After(Next(s, xs[0]), xs[1..])
  {
    hide Next, Enabled;
  }

  lemma NoStep(s: System, xs: seq<Step>)
    requires xs == []
    ensures Possible(s, xs) && After(s, xs) == s
  {
  }

  // ----- The invariant of the monitor's last section

  /** While the monitor holds the lock past its check nothing is in the slot and nothing is hidden,
    * and the guard's drop has not taken the child yet. */
  predicate Guarded(s: System) {
    && (s.monitor == Holding ==> !s.cell.hidden && s.cell.child.None? && !s.dropped)
    && (s.dropped ==> s.shutdown)
  }

  lemma GuardedNext(s: System, x: Step)
    requires Guarded(s) && Enabled(s, x)
    ensures Guarded(Next(s, x))
  {
    hide Tick, Polled;
  }

  lemma {:induction false} StaysGuarded(s: System, xs: seq<Step>)
    requires Guarded(s) && Possible(s, xs)
    ensures Guarded(After(s, xs))
    decreases |xs|
  {
    hide *;
    if xs != [] {
      FirstStep(s, xs);
      GuardedNext(s, xs[0]);
      StaysGuarded(Next(s, xs[0]), xs[1..]);
    } else {
      NoStep(s, xs);
    }
  }

  // ----- Every process is accounted for

  function Count(b: bool): nat {
    if b then 1 else 0
  }

  /** In how many places a process is. */
  function Places(s: System, pid: nat): nat {
    Count(s.cell.child == Some(pid)) + Count(pid in s.reaping) + Count(pid in s.reaped)
    + Count(pid in s.orphaned) + Count(pid in s.released)
  }

  predicate Once(s: System, pid: nat) {
    Places(s, pid) == Count(pid < s.spawned)
  }

  lemma PollMovesOne(s: System, c: Cell, poll: Poll, pid: nat)
    requires Once(s, pid) && (c.child == s.cell.child || c.child.None?)
    ensures Once(AfterPoll(s, c, poll), pid)
  {
  }

  lemma StoreMovesOne(s: System, now: int, pid: nat)
    requires Once(s, pid)
    ensures Once(Stored(s, now), pid)
  {
  }

  lemma TickOnlyEmpties(c: Cell, poll: Poll, now: int)
    ensures Tick(c, poll, now).cell.child == c.child || Tick(c, poll, now).cell.child.None?
    ensures Polled(c, poll).child == c.child || Polled(c, poll).child.None?
  {
  }

  lemma OnceNext(s: System, x: Step, pid: nat)
    requires Guarded(s) && Enabled(s, x) && Once(s, pid)
    ensures Once(Next(s, x), pid)
  {
    hide Tick, Polled, AfterPoll, Stored;
    if x.ShowPolls? {
      TickOnlyEmpties(s.cell, x.poll, 0);
      PollMovesOne(s, Polled(s.cell, x.poll), x.poll, pid);
    } else if x.MonitorTicks? {
      TickOnlyEmpties(s.cell, x.poll, x.now);
      PollMovesOne(s, Tick(s.cell, x.poll, x.now).cell, x.poll, pid);
    } else if x.ShowStores? || x.Launch? {
      StoreMovesOne(s, x.now, pid);
    }
  }

  /** Over every interleaving: each process spawned is in exactly one of the slot, being reaped,
    * reaped, orphaned by the drop, or let go on a poll error; no other process is in any. */
  lemma {:induction false} EveryProcessIsAccounted(s: System, xs: seq<Step>, pid: nat)
    requires Guarded(s) && Possible(s, xs) && Once(s, pid)
    ensures Once(After(s, xs), pid)
    decreases |xs|
  {
    hide *;
    if xs != [] {
      FirstStep(s, xs);
      GuardedNext(s, xs[0]);
      OnceNext(s, xs[0], pid);
      EveryProcessIsAccounted(Next(s, xs[0]), xs[1..], pid);
    } else {
      NoStep(s, xs);
    }
  }

  // ----- What the monitor never does

  /** The monitor never stores while hidden, over an occupied slot, or after the drop took the child;
    * and its check never passes once shutdown is set. */
  lemma MonitorStoresSafely(xs: seq<Step>, spawns: bool, now: int)
    requires Possible(START, xs)
    ensures var s := After(START, xs);
      && (Enabled(s, MonitorStores(spawns, now)) ==> !s.cell.hidden && s.cell.child.None? && !s.dropped)
      && (s.shutdown && Enabled(s, MonitorChecks) ==> Next(s, MonitorChecks).monitor == Polling)
  {
    hide After, Possible;
    StaysGuarded(START, xs);
  }

  predicate Shows(x: Step) {
    (x.ShowStores? && x.spawns) || (x.Launch? && x.wanted && x.spawns)
  }

  /** Nothing in the slot, hidden, and as many spawned as before. */
  predicate Down(s: System, spawned: nat, respawned: nat) {
    Guarded(s) && s.cell.hidden && s.cell.child.None? && s.spawned == spawned && s.respawned == respawned
  }

  lemma DownNext(s: System, x: Step, spawned: nat, respawned: nat)
    requires Down(s, spawned, respawned) && Enabled(s, x) && !Shows(x)
    ensures Down(Next(s, x), spawned, respawned)
  {
  }

  /** After hide, or after the drop, took the child, nothing is spawned and the slot stays empty, and
    * hidden, until a show or the launch stores a child. */
  lemma {:induction false} HiddenStaysEmpty(s: System, xs: seq<Step>, spawned: nat, respawned: nat)
    requires Down(s, spawned, respawned) && Possible(s, xs) && forall i | 0 <= i < |xs| :: !Shows(xs[i])
    ensures Down(After(s, xs), spawned, respawned)
    decreases |xs|
  {
    hide *;
    if xs != [] {
      FirstStep(s, xs);
      DownNext(s, xs[0], spawned, respawned);
      HiddenStaysEmpty(Next(s, xs[0]), xs[1..], spawned, respawned);
    } else {
      NoStep(s, xs);
    }
  }

  // ----- The record

  class Shared {
    var child: Option<nat>
    var spawnedAt: int
    var hidden: bool
    var respawns: nat

    constructor ()
      ensures Value() == START.cell
    {
      child, spawnedAt, hidden, respawns := None, 0, false, 0;
    }

    function Value(): Cell
      reads this
    {
      Cell(child, spawnedAt, hidden, respawns)
    }

    /** child_running. */
    method ChildRunning(poll: Poll) returns (running: bool)
      modifies this
      ensures Value() == Polled(old(Value()), poll) && running == child.Some?
    {
      if child.Some? && poll != Running {
        child := None;
      }
      running := child.Some?;
    }

    /** RespawnPolicy::on_exit. */
    method RecordExit(uptime: int) returns (respawn: bool)
      modifies `respawns
      ensures Grant(respawns, respawn) == OnExit(old(respawns), uptime)
    {
      if uptime >= STABLE_UPTIME {
        respawns := 0;
      }
      if respawns >= MAX_RESPAWNS {
        return false;
      }
      respawns := respawns + 1;
      respawn := true;
    }

    /** One tick of monitor_loop: observe_exit and exit_action. */
    method ObserveAndDecide(poll: Poll, now: int) returns (respawn: bool)
      modifies this
      ensures Reaction(Value(), respawn) == Tick(old(Value()), poll, now)
    {
      if hidden || child.None? || poll == Running {
        return false;
      }
      child := None;
      if poll == PollError {
        return false;
      }
      if poll.how != OnItsOwn {
        hidden := true;
        return false;
      }
      respawn := RecordExit(now - spawnedAt);
      if !respawn {
        hidden := true;
      }
    }

    /** store_fresh_child; returns the prior child, which is killed and reaped. */
    method StoreFreshChild(pid: nat, now: int) returns (prior: Option<nat>)
      modifies this
      ensures Value() == StoreFresh(pid, now) && prior == old(child)
    {
      prior := child;
      child, spawnedAt, respawns, hidden := Some(pid), now, 0, false;
    }

    /** The critical section of hide and of the drop. */
    method Take() returns (taken: Option<nat>)
      modifies this
      ensures Value() == old(Value()).(hidden := true, child := None) && taken == old(child)
    {
      hidden := true;
      taken := child;
      child := None;
    }

    /** The monitor's last section, one step to check and one to store: nothing when the situation
      * changed during the delay, else the fresh child, or parking when it could not be spawned. */
    method Respawn(shutdown: bool, spawned: Option<nat>, now: int, ghost s: System) returns (attempted: bool)
      requires s.cell == Value() && s.shutdown == shutdown && s.monitor == Delaying
      requires spawned.Some? ==> spawned.value == s.spawned
      modifies this
      ensures attempted <==> Next(s, MonitorChecks).monitor == Holding
      ensures Value() == if attempted then Next(Next(s, MonitorChecks), MonitorStores(spawned.Some?, now)).cell
                         else Next(s, MonitorChecks).cell
    {
      if shutdown || hidden || child.Some? {
        return false;
      }
      if spawned.Some? {
        child := spawned;
        spawnedAt := now;
      } else {
        hidden := true;
      }
      attempted := true;
    }
  }
}
