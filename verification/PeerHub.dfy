/** The peer-diagnostics hub (`src/control.rs`). */
module PeerHub {
  import opened Wrappers

  // Requests are matched with answers that arrive later, on other tasks, in any order. Each of `open`,
  // `complete` and `cancel` holds the hub's lock throughout, so each is one step.

  type Peer = nat

  type Reply = string

  /** An answer handed to the request that waits for it. */
  datatype Delivery = Delivery(id: nat, peer: Peer, reply: Reply)

  /** Requests awaiting an answer hold the peer that was asked; `log` is what was delivered. */
  datatype Hub = Hub(nextId: nat, pending: map<nat, Peer>, log: seq<Delivery>)

  const EMPTY := Hub(0, map[], [])

  datatype Step = Open(peer: Peer) | Complete(peer: Peer, id: nat, reply: Reply) | Cancel(id: nat)

  function Next(h: Hub, x: Step): Hub {
    match x
    case Open(peer) => h.(nextId := h.nextId + 1, pending := h.pending[h.nextId + 1 := peer])
    case Complete(peer, id, reply) =>
      if id in h.pending && h.pending[id] == peer
      then h.(pending := h.pending - {id}, log := h.log + [Delivery(id, peer, reply)]) else h
    case Cancel(id) => h.(pending := h.pending - {id})
  }

  function After(h: Hub, xs: seq<Step>): Hub
    decreases |xs|
  {
    if xs == [] then h else After(Next(h, xs[0]), xs[1..])
  }

  /** The replies delivered for one request, in order. */
  function RepliesTo(log: seq<Delivery>, id: nat): seq<Reply> {
    if log == [] then []
    else RepliesTo(log[..|log| - 1], id) + if log[|log| - 1].id == id then [log[|log| - 1].reply] else []
  }

  lemma RepliesNext(log: seq<Delivery>, d: Delivery, id: nat)
    ensures RepliesTo(log + [d], id) == RepliesTo(log, id) + if d.id == id then [d.reply] else []
  {
    assert (log + [d])[..|log|] == log;
  }

  /** What awaiting one answer comes to by the deadline. */
  datatype Outcome = Answered(reply: Reply) | Dropped | TimedOut

  /** What the steps make of a request to `asked`: its first answer or its cancellation, whichever
    * comes first. */
  function Fate(xs: seq<Step>, id: nat, asked: Peer): Outcome {
    if xs == [] then TimedOut
    else match xs[0]
      case Complete(peer, i, reply) => if i == id && peer == asked then Answered(reply) else Fate(xs[1..], id, asked)
      case Cancel(i) => if i == id then Dropped else Fate(xs[1..], id, asked)
      case Open(_) => Fate(xs[1..], id, asked)
  }

  function RepliesOf(outcome: Outcome): seq<Reply> {
    if outcome.Answered? then [outcome.reply] else []
  }

  /** What every state has: ids handed out so far, and no delivery for a request still pending. */
  predicate Waits(h: Hub, id: nat) {
    id <= h.nextId && id in h.pending && RepliesTo(h.log, id) == []
  }

  predicate Settled(h: Hub, id: nat) {
    id <= h.nextId && id !in h.pending
  }

  lemma StepWhileWaiting(h: Hub, x: Step, id: nat)
    requires Waits(h, id)
    ensures var h' := Next(h, x);
      if x.Complete? && x.id == id && x.peer == h.pending[id] then Settled(h', id) && RepliesTo(h'.log, id) == [x.reply]
      else if x.Cancel? && x.id == id then Settled(h', id) && RepliesTo(h'.log, id) == []
      else Waits(h', id) && h'.pending[id] == h.pending[id]
  {
    if x.Complete? {
      RepliesNext(h.log, Delivery(x.id, x.peer, x.reply), id);
      hide RepliesTo;
      assert RepliesTo(h.log, id) + [] == [];
    }
  }

  /** A settled request is never delivered to again. */
  lemma {:induction false} SettledStays(h: Hub, xs: seq<Step>, id: nat)
    requires Settled(h, id)
    ensures Settled(After(h, xs), id) && RepliesTo(After(h, xs).log, id) == RepliesTo(h.log, id)
    decreases |xs|
  {
    if xs != [] {
      var x := xs[0];
      if x.Complete? {
        RepliesNext(h.log, Delivery(x.id, x.peer, x.reply), id);
      }
      hide RepliesTo;
      assert RepliesTo(h.log, id) + [] == RepliesTo(h.log, id);
      SettledStays(Next(h, x), xs[1..], id);
    }
  }

  lemma {:induction false} WaitingResolves(h: Hub, xs: seq<Step>, id: nat)
    requires Waits(h, id)
    ensures RepliesTo(After(h, xs).log, id) == RepliesOf(Fate(xs, id, h.pending[id]))
    decreases |xs|
  {
    if xs != [] {
      var x, next := xs[0], Next(h, xs[0]);
      StepWhileWaiting(h, x, id);
      hide RepliesTo, Next;
      if Waits(next, id) {
        WaitingResolves(next, xs[1..], id);
      } else {
        SettledStays(next, xs[1..], id);
      }
    }
  }

  /** No delivery is for an id that was not handed out yet. */
  predicate IdsBelow(h: Hub) {
    forall i | 0 <= i < |h.log| :: h.log[i].id <= h.nextId
  }

  predicate Sound(h: Hub) {
    IdsBelow(h) && forall id | id in h.pending :: id <= h.nextId
  }

  lemma {:induction false} StaysSound(h: Hub, xs: seq<Step>)
    requires Sound(h)
    ensures Sound(After(h, xs))
    decreases |xs|
  {
    if xs != [] {
      assert Sound(Next(h, xs[0]));
      hide Sound, Next;
      StaysSound(Next(h, xs[0]), xs[1..]);
    }
  }

  lemma {:induction false} NoRepliesAbove(log: seq<Delivery>, id: nat)
    requires forall i | 0 <= i < |log| :: log[i].id != id
    ensures RepliesTo(log, id) == []
  {
    if log != [] {
      NoRepliesAbove(log[..|log| - 1], id);
    }
  }

  /** Over any interleaving: a request to a peer gets exactly the first answer that peer sends before
    * it is cancelled, and nothing else; answers of other peers neither reach nor consume it. */
  lemma RequestGetsItsAnswer(before: seq<Step>, peer: Peer, after: seq<Step>)
    ensures var h := After(EMPTY, before);
      var id := h.nextId + 1;
      RepliesTo(After(Next(h, Open(peer)), after).log, id) == RepliesOf(Fate(after, id, peer))
  {
    hide After, RepliesTo, Fate;
    var h := After(EMPTY, before);
    StaysSound(EMPTY, before);
    NoRepliesAbove(h.log, h.nextId + 1);
    WaitingResolves(Next(h, Open(peer)), after, h.nextId + 1);
  }

  // ----- Answers of others

  /** The run without the answers that do not come from the peer their request was addressed to,
    * `asked` being whom every request so far was addressed to. */
  function Honest(xs: seq<Step>, asked: map<nat, Peer>, nextId: nat): seq<Step> {
    if xs == [] then []
    else match xs[0]
      case Open(peer) => [xs[0]] + Honest(xs[1..], asked[nextId + 1 := peer], nextId + 1)
      case Complete(peer, id, _) =>
        (if id in asked && asked[id] == peer then [xs[0]] else []) + Honest(xs[1..], asked, nextId)
      case Cancel(_) => [xs[0]] + Honest(xs[1..], asked, nextId)
  }

  predicate Addressed(h: Hub, asked: map<nat, Peer>) {
    forall id | id in h.pending :: id in asked && asked[id] == h.pending[id]
  }

  lemma AfterFirst(h: Hub, x: Step, xs: seq<Step>)
    ensures After(h, [x] + xs) == After(Next(h, x), xs)
  {
    assert ([x] + xs)[1..] == xs;
  }

  /** Over any run, answers by the wrong peer, or to ids nobody handed out, might as well not have been
    * sent: they deliver nothing and consume nothing. */
  lemma {:induction false} StrangersDoNotMatter(h: Hub, xs: seq<Step>, asked: map<nat, Peer>)
    requires Addressed(h, asked)
    ensures After(h, Honest(xs, asked, h.nextId)) == After(h, xs)
    decreases |xs|
  {
    if xs != [] {
      var x, next := xs[0], Next(h, xs[0]);
      var asked' := if x.Open? then asked[h.nextId + 1 := x.peer] else asked;
      StrangersDoNotMatter(next, xs[1..], asked');
      var rest := Honest(xs[1..], asked', next.nextId);
      AfterFirst(h, x, rest);
      hide After;
      assert [] + rest == rest;
    }
  }

  // ----- What becomes of a request

  /** The waiting side at hub `h`: a reply delivered is held, a request forgotten will get none. */
  function OutcomeAt(h: Hub, id: nat): Outcome {
    if RepliesTo(h.log, id) != [] then Answered(RepliesTo(h.log, id)[0])
    else if id in h.pending then TimedOut else Dropped
  }

  lemma {:induction false} FateThen(a: seq<Step>, b: seq<Step>, id: nat, asked: Peer)
    ensures Fate(a + b, id, asked) == if Fate(a, id, asked).TimedOut? then Fate(b, id, asked) else Fate(a, id, asked)
  {
    if a == [] {
      assert a + b == b;
    } else {
      assert (a + b)[1..] == a[1..] + b;
      FateThen(a[1..], b, id, asked);
    }
  }

  /** The hub knows what became of the request. */
  predicate Tracks(h: Hub, id: nat, asked: Peer, fate: Outcome) {
    match fate
    case TimedOut => Waits(h, id) && h.pending[id] == asked
    case Answered(reply) => Settled(h, id) && RepliesTo(h.log, id) == [reply]
    case Dropped => Settled(h, id) && RepliesTo(h.log, id) == []
  }

  lemma TracksIs(h: Hub, id: nat, asked: Peer, fate: Outcome)
    requires Tracks(h, id, asked, fate)
    ensures OutcomeAt(h, id) == fate
  {
    hide RepliesTo;
  }

  lemma {:induction false} TracksAfter(h: Hub, xs: seq<Step>, id: nat, asked: Peer, fate: Outcome)
    requires Tracks(h, id, asked, fate)
    ensures Tracks(After(h, xs), id, asked, if fate.TimedOut? then Fate(xs, id, asked) else fate)
    decreases |xs|
  {
    hide RepliesTo;
    if fate != TimedOut {
      SettledStays(h, xs, id);
    } else if xs != [] {
      StepWhileWaiting(h, xs[0], id);
      hide Next;
      if Waits(Next(h, xs[0]), id) {
        TracksAfter(Next(h, xs[0]), xs[1..], id, asked, TimedOut);
      } else {
        SettledStays(Next(h, xs[0]), xs[1..], id);
      }
    }
  }

  lemma CancelOther(h: Hub, id: nat, asked: Peer, fate: Outcome, other: nat)
    requires Tracks(h, id, asked, fate) && other != id
    ensures Tracks(Next(h, Cancel(other)), id, asked, fate)
  {
    hide RepliesTo;
  }

  // ----- The report

  /** A client of the roster: asked under an id, or not asked for a reason. */
  datatype Client = Waiting(name: string, id: nat) | NotAsked(name: string, reason: string)

  datatype Result = Ok(reply: Reply) | Err(reason: string)

  datatype Entry = Entry(name: string, result: Result)

  const DROPPED := "the connection dropped before it answered"
  const TIMED_OUT := "did not answer within 5s"

  function ResultOf(outcome: Outcome): Result {
    match outcome
    case Answered(reply) => Ok(reply)
    case Dropped => Err(DROPPED)
    case TimedOut => Err(TIMED_OUT)
  }

  function EntryFor(h: Hub, c: Client): Entry {
    Entry(c.name, if c.NotAsked? then Err(c.reason) else ResultOf(OutcomeAt(h, c.id)))
  }

  /** A request whose wait ran out is cancelled. */
  function Released(h: Hub, c: Client): Hub {
    if c.Waiting? && OutcomeAt(h, c.id) == TimedOut then Next(h, Cancel(c.id)) else h
  }

  datatype Report = Report(hub: Hub, entries: seq<Entry>)

  /** collect_peer_diagnostics once the roster is known; `meanwhile` is what other tasks do to the hub
    * during the wait for each client. */
  function Collected(h: Hub, roster: seq<Client>, meanwhile: seq<seq<Step>>): (r: Report)
    requires |meanwhile| == |roster|
    ensures |r.entries| == |roster|
  {
    if roster == [] then Report(h, [])
    else
      var n := |roster| - 1;
      var above := Collected(h, roster[..n], meanwhile[..n]);
      var now := After(above.hub, meanwhile[n]);
      Report(Released(now, roster[n]), above.entries + [EntryFor(now, roster[n])])
  }

  function Flat(xss: seq<seq<Step>>): seq<Step> {
    if xss == [] then [] else Flat(xss[..|xss| - 1]) + xss[|xss| - 1]
  }

  predicate AsksFor(c: Client, id: nat) {
    c.Waiting? && c.id == id
  }

  /** While the clients before its own are waited for, a request's fate is decided by the steps of
    * other tasks alone. */
  lemma {:induction false} TracksWhileCollecting(h: Hub, roster: seq<Client>, meanwhile: seq<seq<Step>>, id: nat, asked: Peer)
    requires |meanwhile| == |roster| && Tracks(h, id, asked, TimedOut)
    requires forall i | 0 <= i < |roster| :: !AsksFor(roster[i], id)
    ensures Tracks(Collected(h, roster, meanwhile).hub, id, asked, Fate(Flat(meanwhile), id, asked))
    decreases |roster|
  {
    hide Tracks, Next, After, OutcomeAt, EntryFor;
    if roster != [] {
      var n := |roster| - 1;
      var c, fate := roster[n], Fate(Flat(meanwhile[..n]), id, asked);
      var above := Collected(h, roster[..n], meanwhile[..n]).hub;
      TracksWhileCollecting(h, roster[..n], meanwhile[..n], id, asked);
      TracksAfter(above, meanwhile[n], id, asked, fate);
      FateThen(Flat(meanwhile[..n]), meanwhile[n], id, asked);
      if c.Waiting? {
        CancelOther(After(above, meanwhile[n]), id, asked, Fate(Flat(meanwhile), id, asked), c.id);
      }
    }
  }

  lemma {:induction false} EntriesAbove(h: Hub, roster: seq<Client>, meanwhile: seq<seq<Step>>, i: nat)
    requires |meanwhile| == |roster| && i < |roster|
    ensures Collected(h, roster, meanwhile).entries[i] ==
            EntryFor(After(Collected(h, roster[..i], meanwhile[..i]).hub, meanwhile[i]), roster[i])
    decreases |roster|
  {
    hide EntryFor, Released, After;
    var n := |roster| - 1;
    if i < n {
      EntriesAbove(h, roster[..n], meanwhile[..n], i);
      assert roster[..n][..i] == roster[..i] && meanwhile[..n][..i] == meanwhile[..i];
    }
  }

  /** Each client has one entry. One asked under an id that was waiting has its answer there if and
    * only if the peer asked answered by the end of its turn, and not first to a cancellation; an
    * answer that came while an earlier client was waited for is not lost. */
  lemma {:induction false} ReportIsComplete(h: Hub, roster: seq<Client>, meanwhile: seq<seq<Step>>, i: nat, asked: Peer)
    requires |meanwhile| == |roster| && i < |roster| && roster[i].Waiting?
    requires Waits(h, roster[i].id) && h.pending[roster[i].id] == asked
    requires forall j | 0 <= j < i :: !AsksFor(roster[j], roster[i].id)
    ensures Collected(h, roster, meanwhile).entries[i] ==
            Entry(roster[i].name,
                  match Fate(Flat(meanwhile[..i + 1]), roster[i].id, asked)
                  case Answered(reply) => Ok(reply)
                  case Dropped => Err("the connection dropped before it answered")
                  case TimedOut => Err("did not answer within 5s"))
  {
    hide Collected, Fate, After, Tracks, Flat;
    var id, above := roster[i].id, Collected(h, roster[..i], meanwhile[..i]).hub;
    EntriesAbove(h, roster, meanwhile, i);
    StartsTracked(h, id, asked);
    TracksWhileCollecting(h, roster[..i], meanwhile[..i], id, asked);
    TracksAfter(above, meanwhile[i], id, asked, Fate(Flat(meanwhile[..i]), id, asked));
    FateThen(Flat(meanwhile[..i]), meanwhile[i], id, asked);
    FlatNext(meanwhile, i);
    TracksIs(After(above, meanwhile[i]), id, asked, Fate(Flat(meanwhile[..i + 1]), id, asked));
  }

  /** A client that was not asked has its reason for an entry. */
  lemma {:induction false} NotAskedIsReported(h: Hub, roster: seq<Client>, meanwhile: seq<seq<Step>>, i: nat)
    requires |meanwhile| == |roster| && i < |roster| && roster[i].NotAsked?
    ensures Collected(h, roster, meanwhile).entries[i] == Entry(roster[i].name, Err(roster[i].reason))
  {
    hide Collected, After;
    EntriesAbove(h, roster, meanwhile, i);
  }

  lemma StartsTracked(h: Hub, id: nat, asked: Peer)
    requires Waits(h, id) && h.pending[id] == asked
    ensures Tracks(h, id, asked, TimedOut)
  {
  }

  lemma FlatNext(xss: seq<seq<Step>>, i: nat)
    requires i < |xss|
    ensures Flat(xss[..i + 1]) == Flat(xss[..i]) + xss[i]
  {
    assert xss[..i + 1][..i] == xss[..i];
  }

  /** No request outlives its report: whatever became of it, the hub holds no entry for it. */
  lemma {:induction false} NothingLeaks(h: Hub, roster: seq<Client>, meanwhile: seq<seq<Step>>, i: nat, asked: Peer)
    requires |meanwhile| == |roster| && i < |roster| && roster[i].Waiting?
    requires Waits(h, roster[i].id) && h.pending[roster[i].id] == asked
    requires forall j | 0 <= j < i :: !AsksFor(roster[j], roster[i].id)
    ensures Settled(Collected(h, roster, meanwhile).hub, roster[i].id)
    decreases |roster|
  {
    hide After, Tracks, Flat, Fate, Next, RepliesTo, Waits, EntryFor;
    var id, n := roster[i].id, |roster| - 1;
    var above := Collected(h, roster[..n], meanwhile[..n]).hub;
    if i < n {
      NothingLeaks(h, roster[..n], meanwhile[..n], i, asked);
      SettledStays(above, meanwhile[n], id);
      hide Released;
      SettledReleased(After(above, meanwhile[n]), roster[n], id);
    } else {
      StartsTracked(h, id, asked);
      TracksWhileCollecting(h, roster[..n], meanwhile[..n], id, asked);
      TracksAfter(above, meanwhile[n], id, asked, Fate(Flat(meanwhile[..n]), id, asked));
      hide Released;
      TrackedReleases(After(above, meanwhile[n]), roster[n], id, asked,
                      if Fate(Flat(meanwhile[..n]), id, asked).TimedOut? then Fate(meanwhile[n], id, asked)
                      else Fate(Flat(meanwhile[..n]), id, asked));
    }
  }

  lemma TrackedReleases(h: Hub, c: Client, id: nat, asked: Peer, fate: Outcome)
    requires Tracks(h, id, asked, fate) && AsksFor(c, id)
    ensures Settled(Released(h, c), id)
  {
    hide RepliesTo;
  }

  lemma SettledReleased(h: Hub, c: Client, id: nat)
    requires Settled(h, id)
    ensures Settled(Released(h, c), id)
  {
    hide RepliesTo;
  }

  // ----- The hub as an object

  class DiagnosticsHub {
    var nextId: nat
    var pending: map<nat, Peer>
    /** What the channels of the waiting requests were handed. */
    var log: seq<Delivery>

    constructor ()
      ensures Value() == EMPTY
    {
      nextId, pending, log := 0, map[], [];
    }

    function Value(): Hub
      reads this
    {
      Hub(nextId, pending, log)
    }

    method OpenRequest(peer: Peer) returns (id: nat)
      modifies this
      ensures Value() == Next(old(Value()), Open(peer)) && id == nextId
    {
      nextId := nextId + 1;
      id := nextId;
      pending := pending[id := peer];
    }

    /** complete: `delivered` is what the waiting request receives, if any. */
    method CompleteRequest(peer: Peer, id: nat, reply: Reply) returns (delivered: Option<Reply>)
      modifies this
      ensures Value() == Next(old(Value()), Complete(peer, id, reply))
      ensures delivered == if id in old(pending) && old(pending)[id] == peer then Some(reply) else None
    {
      if id in pending && pending[id] != peer {
        return None;
      }
      if id !in pending {
        return None;
      }
      pending := pending - {id};
      log := log + [Delivery(id, peer, reply)];
      delivered := Some(reply);
    }

    method CancelRequest(id: nat)
      modifies this
      ensures Value() == Next(old(Value()), Cancel(id))
    {
      pending := pending - {id};
    }

    /** What other tasks do to the hub while the report waits. */
    method Interleave(xs: seq<Step>)
      modifies this
      ensures Value() == After(old(Value()), xs)
    {
      assert xs[0..] == xs;
      for i := 0 to |xs|
        invariant After(Value(), xs[i..]) == After(old(Value()), xs)
      {
        assert xs[i..][1..] == xs[i + 1..];
        match xs[i] {
          case Open(peer) => var _ := OpenRequest(peer);
          case Complete(peer, id, reply) => var _ := CompleteRequest(peer, id, reply);
          case Cancel(id) => CancelRequest(id);
        }
      }
    }

    /** collect_peer_diagnostics: one entry per client, in order, whatever became of it. */
    method Collect(roster: seq<Client>, meanwhile: seq<seq<Step>>) returns (out: seq<Entry>)
      requires |meanwhile| == |roster|
      modifies this
      ensures Report(Value(), out) == Collected(old(Value()), roster, meanwhile)
    {
      hide After, Next, RepliesTo;
      out := [];
      for i := 0 to |roster|
        invariant Report(Value(), out) == Collected(old(Value()), roster[..i], meanwhile[..i])
      {
        assert roster[..i + 1][..i] == roster[..i] && meanwhile[..i + 1][..i] == meanwhile[..i];
        Interleave(meanwhile[i]);
        out := out + [EntryFor(Value(), roster[i])];
        if roster[i].Waiting? && OutcomeAt(Value(), roster[i].id) == TimedOut {
          CancelRequest(roster[i].id);
        }
      }
      assert roster[..|roster|] == roster && meanwhile[..|roster|] == meanwhile;
    }
  }
}
