/** The client connection's events side as an object: the loop over one wake's messages with its
  * queue of input, proved against the wake's specification.
  *
  * The specification keeps the frames of a write apart; the object hands each write over as one flat
  * batch of events, as the program does, and `ShownAll` is the link between the two.
  */
module InputConnection {
  import DeferredAnnounce
  import opened BulkStream
  import opened DeltaScaler
  import opened EventConnection
  import opened EventStream
  import opened Seqs
  import opened Wrappers

  /** What the output handler, the clipboard and the network see: a write is one flat batch. */
  datatype Output =
    | Wrote(cls: Option<DeviceClass>, events: seq<InputEvent>)
    | ReleasedAll
    | TookTypes(types: string)
    | AnnouncedTypes
    | Ponged

  function Flat(frames: seq<Frame>): seq<InputEvent> {
    if frames == [] then [] else Flat(frames[..|frames| - 1]) + frames[|frames| - 1]
  }

  function Shown(a: Action): Output {
    match a
    case Write(cls, frames) => Wrote(cls, Flat(frames))
    case ReleaseAll => ReleasedAll
    case SetRemoteTypes(types) => TookTypes(types)
    case AnnounceTypes => AnnouncedTypes
    case Pong => Ponged
  }

  function ShownAll(actions: seq<Action>): seq<Output> {
    if actions == [] then [] else ShownAll(actions[..|actions| - 1]) + [Shown(actions[|actions| - 1])]
  }

  lemma ShownNext(actions: seq<Action>, a: Action)
    ensures ShownAll(actions + [a]) == ShownAll(actions) + [Shown(a)]
  {
    assert (actions + [a])[..|actions|] == actions;
  }

  lemma FlatNext(frames: seq<Frame>, f: Frame)
    ensures Flat(frames + [f]) == Flat(frames) + f
  {
    assert (frames + [f])[..|frames|] == frames;
  }

  class Connection {
    const decode: Decoder
    const scaler: Scaler
    const timer: DeferredAnnounce.Timer
    var eventBytes: seq<Byte>
    var active: bool
    var neverActive: bool
    var output: seq<Output>
    /** The actions behind `output`, with the frames of each write kept apart. */
    ghost var actions: seq<Action>

    constructor (decode: Decoder, scaler: Scaler)
      ensures this.decode == decode && this.scaler == scaler && Valid()
      ensures fresh(timer) && eventBytes == [] && actions == [] && Switching() == DeferredAnnounce.CONNECTED
    {
      this.decode, this.scaler := decode, scaler;
      timer := new DeferredAnnounce.Timer();
      eventBytes, active, neverActive, output, actions := [], false, true, [], [];
    }

    ghost predicate Valid()
      reads `output, `actions
    {
      output == ShownAll(actions)
    }

    function Switching(): DeferredAnnounce.State
      reads `active, `neverActive, timer
    {
      DeferredAnnounce.State(active, neverActive, timer.fireAt)
    }

    ghost function Now(q: Queue): World
      reads `active, `neverActive, timer, `actions, scaler
    {
      World(Switching(), scaler.remainders, q, actions)
    }

    method Do(shown: Output, ghost a: Action)
      requires Valid() && shown == Shown(a)
      modifies `output, `actions
      ensures Valid() && actions == old(actions) + [a]
    {
      ShownNext(actions, a);
      output := output + [shown];
      actions := actions + [a];
    }

    /** flush_pending_input: one write of all that is queued. */
    method FlushPendingInput(pending: seq<InputEvent>, cls: Option<DeviceClass>, ghost frames: seq<Frame>)
      requires Valid() && pending == Flat(frames) && (pending == [] <==> frames == [])
      modifies `output, `actions
      ensures Valid() && Now(EventStream.EMPTY) == Flush(old(Now(Queue(frames, cls))))
    {
      if pending == [] {
        assert actions + [] == actions;
        return;
      }
      Do(Wrote(cls, pending), Write(cls, frames));
    }

    /** queue_input: queues a frame, or writes it at once when it must keep its own boundary. */
    method QueueInput(pending: seq<InputEvent>, cls: Option<DeviceClass>, ghost frames: seq<Frame>,
                      newCls: Option<DeviceClass>, events: Frame)
      returns (pending': seq<InputEvent>, cls': Option<DeviceClass>, ghost frames': seq<Frame>)
      requires Valid() && pending == Flat(frames) && (pending == [] <==> frames == [])
      modifies `output, `actions
      ensures Valid() && pending' == Flat(frames') && (pending' == [] <==> frames' == [])
      ensures Now(Queue(frames', cls')) == EventStream.QueueInput(old(Now(Queue(frames, cls))), newCls, events)
    {
      hide NeedsOwnSyn, Flat, ShownAll;
      pending', cls', frames' := pending, cls, frames;
      FlatOfOne(events);
      var ownFrame := newCls == Some(Touchpad) || NeedsOwnSyn(events);
      if ownFrame {
        FlushPendingInput(pending, cls, frames);
        Do(Wrote(newCls, events), Write(newCls, [events]));
        pending', cls', frames' := [], None, [];
        return;
      }
      if pending' != [] && cls' != newCls {
        FlushPendingInput(pending, cls, frames);
        pending', frames' := [], [];
      }
      cls' := newCls;
      FlatNext(frames', events);
      assert frames' + [] == frames';
      pending' := pending' + events;
      frames' := if events == [] then frames' else frames' + [events];
    }

    /** The Switch handler, after queued input was flushed. */
    method HandleSwitch(enabled: bool, now: int)
      requires Valid()
      modifies `active, `neverActive, timer, `output, `actions
      ensures Valid() && Now(EventStream.EMPTY) == EventStream.HandleSwitch(old(Now(EventStream.EMPTY)), enabled, now)
    {
      hide EventStream.HandleSwitch, ShownAll;
      ghost var was := Switching();
      SwitchIs(Now(EventStream.EMPTY), enabled, now);
      active := enabled;
      var firstActivation := enabled && neverActive;
      if enabled {
        neverActive := false;
      }
      if !enabled {
        Do(ReleasedAll, ReleaseAll);
        var _ := timer.OnSwitch(false, now, was);
      } else {
        var wasPending := timer.OnSwitch(true, now, was);
        if wasPending {
        } else if firstActivation {
          Do(AnnouncedTypes, AnnounceTypes);
        }
      }
    }

    /** One message of a wake. */
    method HandleMessage(m: EventStream.Message, now: int, pending: seq<InputEvent>, cls: Option<DeviceClass>, ghost frames: seq<Frame>)
      returns (pending': seq<InputEvent>, cls': Option<DeviceClass>, ghost frames': seq<Frame>)
      requires Valid() && pending == Flat(frames) && (pending == [] <==> frames == [])
      modifies `active, `neverActive, timer, `output, `actions, scaler
      ensures Valid() && pending' == Flat(frames') && (pending' == [] <==> frames' == [])
      ensures Now(Queue(frames', cls')) == Handle(old(Now(Queue(frames, cls))), m, scaler.scales, now)
    {
      pending', cls', frames' := pending, cls, frames;
      hide ScaleAll, EventStream.QueueInput, ShownAll;
      match m {
        case Switch(enabled) =>
          FlushPendingInput(pending, cls, frames);
          pending', cls', frames' := [], None, [];
          HandleSwitch(enabled, now);
          SwitchFlushes(old(Now(Queue(frames, cls))), enabled, now);
        case Input(newCls, events) =>
          var scaled := scaler.Apply(events);
          pending', cls', frames' := QueueInput(pending, cls, frames, newCls, scaled);
        case ClipboardTypes(types) =>
          FlushPendingInput(pending, cls, frames);
          pending', cls', frames' := [], None, [];
          Do(TookTypes(types), SetRemoteTypes(types));
        case Ping =>
          Do(Ponged, Pong);
        case EdgeInfo(_) =>
        case EdgeInfoRevoke(_) =>
      }
    }

    /** handle_event_messages: every complete frame buffered, then the queued input, then the partial
      * frame is kept. `ok` is false when the connection must be reset. */
    method HandleEventMessages(now: int) returns (ok: bool)
      requires Valid()
      modifies this, timer, scaler
      ensures Valid()
      ensures var p := Parsed(old(eventBytes), decode);
        && ok == p.ok
        && (ok ==> eventBytes == p.rest
                   && Now(EventStream.EMPTY) == Flush(HandleAll(old(Now(EventStream.EMPTY)), p.messages, scaler.scales, now)))
        && (!ok ==> actions == HandleAll(old(Now(EventStream.EMPTY)), p.messages, scaler.scales, now).actions)
    {
      hide *;
      var offset := 0;
      var bytesLen := |eventBytes|;
      var pending: seq<InputEvent>, cls: Option<DeviceClass> := [], None;
      ghost var frames: seq<Frame> := [];
      ghost var b, start := eventBytes, Now(EventStream.EMPTY);
      ghost var all := Parsed(b, decode);
      ghost var seen: seq<EventStream.Message> := [];
      ParsedStart(b, decode);
      HandleNone(start, scaler.scales, now);
      while offset < bytesLen
        invariant 0 <= offset <= bytesLen == |b| && eventBytes == b && Valid()
        invariant pending == Flat(frames) && (pending == [] <==> frames == [])
        invariant ParsedFrom(all, seen, Parsed(b[offset..], decode))
        invariant Now(Queue(frames, cls)) == HandleAll(start, seen, scaler.scales, now)
      {
        if !HasCompleteFrame(eventBytes[offset..]) {
          break;
        }
        var z := FrameEnd(eventBytes[offset..]);
        ParsedStep(all, seen, b, offset, decode);
        var decoded := decode(eventBytes[offset..][..z]);
        if decoded.None? {
          NowActs(Queue(frames, cls));
          return false;
        }
        var m := decoded.value;
        HandleNext(start, seen, m, scaler.scales, now);
        pending, cls, frames := HandleMessage(m, now, pending, cls, frames);
        offset := offset + (z + 1);
        seen := seen + [m];
      }
      ParsedLast(all, seen, b, offset, decode);
      FlushPendingInput(pending, cls, frames);
      eventBytes := eventBytes[offset..];
      ok := true;
    }

    /** A chunk from the events stream; `ok` is false when the connection must be reset. */
    method OnChunk(chunk: seq<Byte>, now: int) returns (ok: bool)
      requires Valid()
      modifies this, timer, scaler
      ensures Valid()
      ensures Woken(old(Live(eventBytes, Now(EventStream.EMPTY))), Chunk(chunk, now), decode, scaler.scales)
              == if ok then Live(eventBytes, Now(EventStream.EMPTY)) else Lost(actions)
    {
      hide Parsed, HandleAll, Flush, ShownAll;
      eventBytes := eventBytes + chunk;
      if |eventBytes| > MAX_FRAME_BUFFER_BYTES {
        return false;
      }
      ok := HandleEventMessages(now);
    }

    /** The deferred announcement's timer ran out. */
    method OnExpiry(at: int)
      requires Valid() && DeferredAnnounce.Enabled(Switching(), DeferredAnnounce.Fires(at))
      modifies timer, `output, `actions
      ensures Valid()
      ensures Live(eventBytes, Now(EventStream.EMPTY))
              == Woken(old(Live(eventBytes, Now(EventStream.EMPTY))), Fires(at), decode, scaler.scales)
    {
      ghost var was := Switching();
      var announce := timer.TakeExpired(active, at, was);
      if announce {
        Do(AnnouncedTypes, AnnounceTypes);
      }
    }

    lemma NowActs(q: Queue)
      ensures Now(q).actions == actions
    {
    }
  }

  /** The Switch handler when nothing is queued. */
  lemma SwitchIs(w: World, enabled: bool, now: int)
    requires w.queue == EventStream.EMPTY
    ensures var x := DeferredAnnounce.Switch(enabled, now);
      EventStream.HandleSwitch(w, enabled, now) ==
      (if !enabled then Done(w, ReleaseAll) else if DeferredAnnounce.Announces(w.switching, x) then Done(w, AnnounceTypes) else w)
      .(switching := DeferredAnnounce.Next(w.switching, x))
  {
    assert w.actions + [] == w.actions;
  }

  lemma SwitchFlushes(w: World, enabled: bool, now: int)
    ensures EventStream.HandleSwitch(Flush(w), enabled, now) == EventStream.HandleSwitch(w, enabled, now)
  {
    assert Flush(w).actions + [] == Flush(w).actions;
  }

  /** `all` is the messages `seen` and then `q`. */
  ghost predicate ParsedFrom(all: Parse, seen: seq<EventStream.Message>, q: Parse) {
    all.ok == q.ok && all.messages == seen + q.messages && (all.ok ==> all.rest == q.rest)
  }

  lemma ParsedStart(b: seq<Byte>, decode: Decoder)
    ensures ParsedFrom(Parsed(b, decode), [], Parsed(b[0..], decode))
  {
    assert b[0..] == b && [] + Parsed(b, decode).messages == Parsed(b, decode).messages;
  }

  lemma HandleNone(w: World, scales: Scales, now: int)
    ensures HandleAll(w, [], scales, now) == w && Flat([]) == [] && EventStream.EMPTY == Queue([], None)
  {
  }

  lemma ParsedNext(all: Parse, seen: seq<EventStream.Message>, m: EventStream.Message, q: Parse, below: Parse)
    requires ParsedFrom(all, seen, q)
    requires q == Parse(below.ok, [m] + below.messages, below.rest)
    ensures ParsedFrom(all, seen + [m], below)
  {
    Assoc(seen, [m], below.messages);
  }

  lemma ParsedBad(all: Parse, seen: seq<EventStream.Message>, b: seq<Byte>)
    requires ParsedFrom(all, seen, Parse(false, [], b))
    ensures !all.ok && all.messages == seen
  {
    assert seen + [] == seen;
  }

  lemma FrameFits(b: seq<Byte>, offset: nat)
    requires offset <= |b| && HasCompleteFrame(b[offset..])
    ensures offset + FrameEnd(b[offset..]) < |b|
    ensures b[offset..][FrameEnd(b[offset..]) + 1..] == b[offset + (FrameEnd(b[offset..]) + 1)..]
  {
    DropDrop(b, offset, FrameEnd(b[offset..]) + 1);
  }

  lemma {:induction false} ParsedStep(all: Parse, seen: seq<EventStream.Message>, b: seq<Byte>, offset: nat, decode: Decoder)
    requires offset <= |b| && HasCompleteFrame(b[offset..]) && ParsedFrom(all, seen, Parsed(b[offset..], decode))
    ensures var z := FrameEnd(b[offset..]);
      && offset + z < |b|
      && match decode(b[offset..][..z])
         case None => !all.ok && all.messages == seen
         case Some(m) => ParsedFrom(all, seen + [m], Parsed(b[offset + (z + 1)..], decode))
  {
    hide *;
    var s := b[offset..];
    FrameFits(b, offset);
    FirstParsed(s, decode);
    var decoded, below := decode(s[..FrameEnd(s)]), Parsed(s[FrameEnd(s) + 1..], decode);
    if decoded.Some? {
      ParsedNext(all, seen, decoded.value, Parsed(s, decode), below);
    } else {
      ParsedBad(all, seen, s);
    }
  }

  lemma ParsedLast(all: Parse, seen: seq<EventStream.Message>, b: seq<Byte>, offset: nat, decode: Decoder)
    requires offset <= |b| && (offset == |b| || !HasCompleteFrame(b[offset..])) && ParsedFrom(all, seen, Parsed(b[offset..], decode))
    ensures all == Parse(true, seen, b[offset..])
  {
    NothingParsed(b[offset..], decode);
    assert seen + [] == seen;
  }

  lemma FlatOfOne(f: Frame)
    ensures Flat([f]) == f && Flat([]) == []
  {
    assert [f][..0] == [];
  }

  lemma NothingParsed(b: seq<Byte>, decode: Decoder)
    requires !HasCompleteFrame(b)
    ensures Parsed(b, decode) == Parse(true, [], b)
  {
  }

  lemma {:induction false} HandleNext(w: World, seen: seq<EventStream.Message>, m: EventStream.Message, scales: Scales, now: int)
    ensures HandleAll(w, seen + [m], scales, now) == Handle(HandleAll(w, seen, scales, now), m, scales, now)
    decreases |seen|
  {
    hide Handle;
    if seen == [] {
      assert [] + [m] == [m] && [m][1..] == [];
    } else {
      assert (seen + [m])[1..] == seen[1..] + [m];
      HandleNext(Handle(w, seen[0], scales, now), seen[1..], m, scales, now);
    }
  }
}
