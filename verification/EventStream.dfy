/** The client's events stream: input frames coalesced into device writes without losing or
  * reordering any (`src/client.rs`).
  */
module EventStream {
  import DeferredAnnounce
  import opened DeltaScaler
  import opened Seqs
  import opened Wrappers

  datatype DeviceClass = Keyboard | Mouse | Touchpad

  type Frame = seq<InputEvent>

  /** An input frame carries its device class when the server tags it. */
  datatype Message =
    | Switch(enabled: bool)
    | Input(cls: Option<DeviceClass>, events: Frame)
    | ClipboardTypes(types: string)
    | Ping
    | EdgeInfo(direction: nat)
    | EdgeInfoRevoke(direction: nat)

  /** What the client does, in order: one device write of one or more frames, releasing the held
    * keys, taking over the server's clipboard types, announcing its own, answering a ping. */
  datatype Action =
    | Write(cls: Option<DeviceClass>, frames: seq<Frame>)
    | ReleaseAll
    | SetRemoteTypes(types: string)
    | AnnounceTypes
    | Pong

  function TypeOf(e: InputEvent): Option<nat> {
    if e.inputi32.Some? then Some(e.inputi32.value.type_)
    else if e.inputf64.Some? then Some(e.inputf64.value.type_)
    else None
  }

  /** frame_needs_own_syn. */
  predicate NeedsOwnSyn(f: Frame) {
    exists i | 0 <= i < |f| :: TypeOf(f[i]) == Some(EV_ABS)
  }

  predicate Own(cls: Option<DeviceClass>, f: Frame) {
    cls == Some(Touchpad) || NeedsOwnSyn(f)
  }

  /** The frames queued for the next write and the class they came from. */
  datatype Queue = Queue(frames: seq<Frame>, cls: Option<DeviceClass>)

  const EMPTY := Queue([], None)

  datatype World = World(switching: DeferredAnnounce.State, remainders: Remainders, queue: Queue, actions: seq<Action>)

  // ----- The specification

  function Flush(w: World): World {
    w.(queue := EMPTY, actions := w.actions + if w.queue.frames == [] then [] else [Write(w.queue.cls, w.queue.frames)])
  }

  function Done(w: World, a: Action): World {
    w.(actions := w.actions + [a])
  }

  function QueueInput(w: World, cls: Option<DeviceClass>, f: Frame): World {
    if Own(cls, f) then
      Done(Flush(w), Write(cls, [f]))
    else
      var ready := if w.queue.frames != [] && w.queue.cls != cls then Flush(w) else w;
      ready.(queue := Queue(ready.queue.frames + if f == [] then [] else [f], cls))
  }

  /** The Switch handler. */
  function HandleSwitch(w: World, enabled: bool, now: int): World {
    var flushed, x := Flush(w), DeferredAnnounce.Switch(enabled, now);
    var released := if enabled then flushed else Done(flushed, ReleaseAll);
    var announced := if DeferredAnnounce.Announces(w.switching, x) then Done(released, AnnounceTypes) else released;
    announced.(switching := DeferredAnnounce.Next(w.switching, x))
  }

  /** The deferred announcement's timer running out, if it is due. */
  function Expire(w: World, at: int): World {
    var x := DeferredAnnounce.Fires(at);
    if !DeferredAnnounce.Enabled(w.switching, x) then w
    else (if DeferredAnnounce.Announces(w.switching, x) then Done(w, AnnounceTypes) else w)
         .(switching := DeferredAnnounce.Next(w.switching, x))
  }

  function HandleInput(w: World, cls: Option<DeviceClass>, events: Frame, scales: Scales): World {
    var scaled := ScaleAll(scales, w.remainders, events);
    QueueInput(w.(remainders := scaled.remainders), cls, scaled.events)
  }

  function Handle(w: World, m: Message, scales: Scales, now: int): World {
    match m
    case Switch(enabled) => HandleSwitch(w, enabled, now)
    case Input(cls, events) => HandleInput(w, cls, events, scales)
    case ClipboardTypes(types) => Done(Flush(w), SetRemoteTypes(types))
    case Ping => Done(w, Pong)
    case EdgeInfo(_) => w
    case EdgeInfoRevoke(_) => w
  }

  function HandleAll(w: World, ms: seq<Message>, scales: Scales, now: int): World
    decreases |ms|
  {
    if ms == [] then w else HandleAll(Handle(w, ms[0], scales, now), ms[1..], scales, now)
  }

  // ----- What must come out

  /** One input frame, or one of the two steps input must not move across. */
  datatype Item = Framed(cls: Option<DeviceClass>, frame: Frame) | Released | TypesSet(types: string)

  function Items(cls: Option<DeviceClass>, frames: seq<Frame>): seq<Item> {
    if frames == [] then [] else [Framed(cls, frames[0])] + Items(cls, frames[1..])
  }

  function ItemsOf(a: Action): seq<Item> {
    match a
    case Write(cls, frames) => Items(cls, frames)
    case ReleaseAll => [Released]
    case SetRemoteTypes(types) => [TypesSet(types)]
    case AnnounceTypes => []
    case Pong => []
  }

  /** The frames written, in order, and where the keys were released and the types set. */
  function Trace(actions: seq<Action>): seq<Item> {
    if actions == [] then [] else Trace(actions[..|actions| - 1]) + ItemsOf(actions[|actions| - 1])
  }

  /** What a message asks for: its scaled frame, unless nothing of it is left to coalesce. */
  function Asked(m: Message, scales: Scales, r: Remainders): seq<Item> {
    match m
    case Switch(enabled) => if enabled then [] else [Released]
    case Input(cls, events) =>
      var f := ScaleAll(scales, r, events).events;
      if f == [] && !Own(cls, f) then [] else [Framed(cls, f)]
    case ClipboardTypes(types) => [TypesSet(types)]
    case _ => []
  }

  function Scaled(m: Message, scales: Scales, r: Remainders): Remainders {
    if m.Input? then ScaleAll(scales, r, m.events).remainders else r
  }

  /** The messages' scaled input, releases and types in arrival order. */
  function Expected(ms: seq<Message>, scales: Scales, r: Remainders): seq<Item>
    decreases |ms|
  {
    if ms == [] then [] else Asked(ms[0], scales, r) + Expected(ms[1..], scales, Scaled(ms[0], scales, r))
  }

  function ScaledAll(ms: seq<Message>, scales: Scales, r: Remainders): Remainders
    decreases |ms|
  {
    if ms == [] then r else ScaledAll(ms[1..], scales, Scaled(ms[0], scales, r))
  }

  /** What was done, and then what is still queued. */
  function Seen(w: World): seq<Item> {
    Trace(w.actions) + Items(w.queue.cls, w.queue.frames)
  }

  lemma TraceNext(actions: seq<Action>, a: Action)
    ensures Trace(actions + [a]) == Trace(actions) + ItemsOf(a)
  {
    assert (actions + [a])[..|actions|] == actions;
  }

  lemma {:induction false} ItemsConcat(cls: Option<DeviceClass>, a: seq<Frame>, b: seq<Frame>)
    ensures Items(cls, a + b) == Items(cls, a) + Items(cls, b)
  {
    if a == [] {
      assert a + b == b;
    } else {
      assert (a + b)[1..] == a[1..] + b;
      ItemsConcat(cls, a[1..], b);
    }
  }

  lemma ItemsOfOne(cls: Option<DeviceClass>, f: Frame)
    ensures Items(cls, [f]) == [Framed(cls, f)]
  {
    assert [f][1..] == [];
  }

  lemma FlushKeeps(w: World)
    ensures Trace(Flush(w).actions) == Seen(w) && Seen(Flush(w)) == Seen(w)
  {
    if w.queue.frames != [] {
      TraceNext(w.actions, Write(w.queue.cls, w.queue.frames));
    } else {
      assert w.actions + [] == w.actions;
    }
    hide Trace;
    assert Trace(Flush(w).actions) + [] == Trace(Flush(w).actions);
    assert Trace(w.actions) + [] == Trace(w.actions);
  }

  lemma QueueKeeps(w: World, cls: Option<DeviceClass>, f: Frame)
    ensures Seen(QueueInput(w, cls, f)) == Seen(w) + if f == [] && !Own(cls, f) then [] else [Framed(cls, f)]
  {
    FlushKeeps(w);
    ItemsOfOne(cls, f);
    hide NeedsOwnSyn;
    if Own(cls, f) {
      TraceNext(Flush(w).actions, Write(cls, [f]));
      hide Trace, Items;
      assert Items(None, []) == [] by { NoItems(); }
      assert Seen(QueueInput(w, cls, f)) == Seen(w) + [Framed(cls, f)] + [];
    } else {
      var ready := if w.queue.frames != [] && w.queue.cls != cls then Flush(w) else w;
      hide Trace, Own;
      assert Items(ready.queue.cls, ready.queue.frames) == Items(cls, ready.queue.frames);
      hide Items;
      if f == [] {
        assert ready.queue.frames + [] == ready.queue.frames && Seen(w) + [] == Seen(w);
      } else {
        ItemsConcat(cls, ready.queue.frames, [f]);
        Assoc(Trace(ready.actions), Items(cls, ready.queue.frames), [Framed(cls, f)]);
      }
    }
  }

  lemma NoItems()
    ensures forall cls :: Items(cls, []) == []
  {
  }

  /** Doing one more thing while nothing is queued, or one that shows no item. */
  lemma DoneAdds(w: World, a: Action)
    requires w.queue == EMPTY || ItemsOf(a) == []
    ensures Seen(Done(w, a)) == Seen(w) + ItemsOf(a)
  {
    TraceNext(w.actions, a);
    NoItems();
    hide Trace, ItemsOf, Items;
    var t, i := Trace(w.actions), ItemsOf(a);
    if w.queue == EMPTY {
      assert t + i + [] == t + [] + i;
    } else {
      EmptyEnds(t, Seen(w));
    }
  }

  lemma SwitchKeeps(w: World, enabled: bool, now: int)
    ensures Seen(HandleSwitch(w, enabled, now)) == Seen(w) + if enabled then [] else [Released]
  {
    FlushKeeps(w);
    var flushed := Flush(w);
    assert flushed.queue == EMPTY && ItemsOf(ReleaseAll) == [Released] && ItemsOf(AnnounceTypes) == [];
    hide Flush, Items, Trace, ItemsOf;
    DoneAdds(flushed, ReleaseAll);
    var released := if enabled then flushed else Done(flushed, ReleaseAll);
    DoneAdds(released, AnnounceTypes);
    EmptyEnds(Seen(released), Seen(w));
    SameSeen(w, enabled, now);
    hide Seen;
  }

  lemma SameSeen(w: World, enabled: bool, now: int)
    ensures var flushed, x := Flush(w), DeferredAnnounce.Switch(enabled, now);
      var released := if enabled then flushed else Done(flushed, ReleaseAll);
      var announced := if DeferredAnnounce.Announces(w.switching, x) then Done(released, AnnounceTypes) else released;
      Seen(HandleSwitch(w, enabled, now)) == Seen(announced)
  {
    hide Trace, Items;
  }

  lemma InputKeeps(w: World, cls: Option<DeviceClass>, events: Frame, scales: Scales)
    ensures var w', f := HandleInput(w, cls, events, scales), ScaleAll(scales, w.remainders, events);
      && Seen(w') == Seen(w) + (if f.events == [] && !Own(cls, f.events) then [] else [Framed(cls, f.events)])
      && w'.remainders == f.remainders
  {
    hide Trace, Items, ScaleAll, Own;
    var scaled := ScaleAll(scales, w.remainders, events);
    QueueKeeps(w.(remainders := scaled.remainders), cls, scaled.events);
    assert Seen(w.(remainders := scaled.remainders)) == Seen(w);
  }

  /** Handling a message adds what it asks for behind everything before it. */
  lemma {:induction false} HandleKeeps(w: World, m: Message, scales: Scales, now: int)
    ensures var w' := Handle(w, m, scales, now);
      Seen(w') == Seen(w) + Asked(m, scales, w.remainders) && w'.remainders == Scaled(m, scales, w.remainders)
  {
    hide Seen, HandleInput, ScaleAll, Own;
    EmptyEnds(Seen(w), []);
    match m
    case Switch(enabled) => SwitchKeeps(w, enabled, now);
    case Input(cls, events) => InputKeeps(w, cls, events, scales);
    case ClipboardTypes(types) =>
      FlushKeeps(w);
      DoneAdds(Flush(w), SetRemoteTypes(types));
    case Ping => DoneAdds(w, Pong);
    case EdgeInfo(_) =>
    case EdgeInfoRevoke(_) =>
  }

  lemma EmptyEnds(a: seq<Item>, b: seq<Item>)
    ensures a + [] == a && b + [] == b
  {
  }

  lemma {:induction false} HandleAllKeeps(w: World, ms: seq<Message>, scales: Scales, now: int)
    ensures var w' := HandleAll(w, ms, scales, now);
      Seen(w') == Seen(w) + Expected(ms, scales, w.remainders) && w'.remainders == ScaledAll(ms, scales, w.remainders)
    decreases |ms|
  {
    hide Handle, Seen, Asked, Scaled;
    if ms == [] {
      EmptyEnds(Seen(w), []);
    } else {
      HandleKeeps(w, ms[0], scales, now);
      HandleAllKeeps(Handle(w, ms[0], scales, now), ms[1..], scales, now);
      Assoc(Seen(w), Asked(ms[0], scales, w.remainders), Expected(ms[1..], scales, Scaled(ms[0], scales, w.remainders)));
    }
  }

  /** Over one wake: the writes are the scaled input frames in arrival order, with the key release of
    * a deactivation after all earlier and before all later input, and nothing stays queued. */
  lemma WakeKeepsOrder(w: World, ms: seq<Message>, scales: Scales, now: int)
    requires w.queue == EMPTY
    ensures var w' := Flush(HandleAll(w, ms, scales, now));
      && w'.queue == EMPTY
      && Trace(w'.actions) == Trace(w.actions) + Expected(ms, scales, w.remainders)
  {
    HandleAllKeeps(w, ms, scales, now);
    FlushKeeps(HandleAll(w, ms, scales, now));
    hide HandleAll, Trace, Expected;
    assert Trace(w.actions) + [] == Trace(w.actions);
  }

  // ----- Frame boundaries

  /** Frames that may share a write: none of them must keep its own, none is empty. */
  predicate Mergeable(cls: Option<DeviceClass>, frames: seq<Frame>) {
    forall i | 0 <= i < |frames| :: !Own(cls, frames[i]) && frames[i] != []
  }

  /** A write is one frame on its own, or frames of one class none of which must be on its own. */
  predicate GoodWrite(a: Action) {
    a.Write? ==> (|a.frames| == 1 && Own(a.cls, a.frames[0])) || (a.frames != [] && Mergeable(a.cls, a.frames))
  }

  predicate GoodWrites(w: World) {
    Mergeable(w.queue.cls, w.queue.frames) && forall i | 0 <= i < |w.actions| :: GoodWrite(w.actions[i])
  }

  lemma HandleKeepsFrames(w: World, m: Message, scales: Scales, now: int)
    requires GoodWrites(w)
    ensures GoodWrites(Handle(w, m, scales, now))
  {
    hide ScaleAll, Own;
    assert GoodWrites(Flush(w));
  }

  /** Every device write keeps the frame boundaries that matter. */
  lemma {:induction false} FramesAreKept(w: World, ms: seq<Message>, scales: Scales, now: int)
    requires GoodWrites(w)
    ensures GoodWrites(HandleAll(w, ms, scales, now)) && GoodWrites(Flush(HandleAll(w, ms, scales, now)))
    decreases |ms|
  {
    if ms != [] {
      HandleKeepsFrames(w, ms[0], scales, now);
      hide GoodWrites, Handle;
      FramesAreKept(Handle(w, ms[0], scales, now), ms[1..], scales, now);
    }
  }

  // ----- Announcements

  function Occurrences(actions: seq<Action>, a: Action): nat {
    if actions == [] then 0
    else Occurrences(actions[..|actions| - 1], a) + if actions[|actions| - 1] == a then 1 else 0
  }

  lemma OccurrencesNext(actions: seq<Action>, b: Action, a: Action)
    ensures Occurrences(actions + [b], a) == Occurrences(actions, a) + if b == a then 1 else 0
  {
    assert (actions + [b])[..|actions|] == actions;
  }

  /** The announcements made number at most the deactivations, each of which released the keys, and
    * one first activation. */
  predicate Quiet(w: World) {
    DeferredAnnounce.Bounded(w.switching, Occurrences(w.actions, AnnounceTypes), Occurrences(w.actions, ReleaseAll))
  }

  lemma DoneIsQuiet(w: World, a: Action)
    requires Quiet(w) && a != AnnounceTypes && a != ReleaseAll
    ensures Quiet(Done(w, a))
  {
    OccurrencesNext(w.actions, a, AnnounceTypes);
    OccurrencesNext(w.actions, a, ReleaseAll);
  }

  lemma FlushIsQuiet(w: World)
    requires Quiet(w)
    ensures Quiet(Flush(w)) && Flush(w).switching == w.switching
  {
    DoneIsQuiet(w, Write(w.queue.cls, w.queue.frames));
    assert w.actions + [] == w.actions;
  }

  lemma SwitchIsQuiet(w: World, enabled: bool, now: int)
    requires Quiet(w)
    ensures Quiet(HandleSwitch(w, enabled, now))
  {
    FlushIsQuiet(w);
    var x, flushed := DeferredAnnounce.Switch(enabled, now), Flush(w);
    hide Flush, Occurrences;
    DeferredAnnounce.StepKeepsBound(w.switching, x, Occurrences(flushed.actions, AnnounceTypes), Occurrences(flushed.actions, ReleaseAll));
    var a := if enabled then AnnounceTypes else ReleaseAll;
    OccurrencesNext(flushed.actions, a, AnnounceTypes);
    OccurrencesNext(flushed.actions, a, ReleaseAll);
  }

  lemma ExpireIsQuiet(w: World, at: int)
    requires Quiet(w)
    ensures Quiet(Expire(w, at))
  {
    var x := DeferredAnnounce.Fires(at);
    hide Occurrences;
    if DeferredAnnounce.Enabled(w.switching, x) {
      DeferredAnnounce.StepKeepsBound(w.switching, x, Occurrences(w.actions, AnnounceTypes), Occurrences(w.actions, ReleaseAll));
      OccurrencesNext(w.actions, AnnounceTypes, AnnounceTypes);
      OccurrencesNext(w.actions, AnnounceTypes, ReleaseAll);
    }
  }

  lemma QueueIsQuiet(w: World, cls: Option<DeviceClass>, f: Frame)
    requires Quiet(w)
    ensures Quiet(QueueInput(w, cls, f))
  {
    hide Flush, Occurrences, Own, Quiet, Done;
    FlushIsQuiet(w);
    DoneIsQuiet(Flush(w), Write(cls, [f]));
    QueuedIsQuiet(w, Queue(w.queue.frames + if f == [] then [] else [f], cls));
    QueuedIsQuiet(Flush(w), Queue(Flush(w).queue.frames + if f == [] then [] else [f], cls));
  }

  lemma QueuedIsQuiet(w: World, q: Queue)
    requires Quiet(w)
    ensures Quiet(w.(queue := q))
  {
  }

  lemma HandleIsQuiet(w: World, m: Message, scales: Scales, now: int)
    requires Quiet(w)
    ensures Quiet(Handle(w, m, scales, now))
  {
    hide Flush, Occurrences, QueueInput, HandleSwitch, ScaleAll;
    match m
    case Switch(enabled) => SwitchIsQuiet(w, enabled, now);
    case Input(cls, events) =>
      var scaled := ScaleAll(scales, w.remainders, events);
      QueueIsQuiet(w.(remainders := scaled.remainders), cls, scaled.events);
    case ClipboardTypes(types) =>
      FlushIsQuiet(w);
      DoneIsQuiet(Flush(w), SetRemoteTypes(types));
    case Ping => DoneIsQuiet(w, Pong);
    case EdgeInfo(_) =>
    case EdgeInfoRevoke(_) =>
  }

  lemma {:induction false} HandleAllIsQuiet(w: World, ms: seq<Message>, scales: Scales, now: int)
    requires Quiet(w)
    ensures Quiet(HandleAll(w, ms, scales, now)) && Quiet(Flush(HandleAll(w, ms, scales, now)))
    decreases |ms|
  {
    hide Handle, Quiet, Flush;
    if ms == [] {
      FlushIsQuiet(w);
    } else {
      HandleIsQuiet(w, ms[0], scales, now);
      HandleAllIsQuiet(Handle(w, ms[0], scales, now), ms[1..], scales, now);
    }
  }

  // ----- Bursts and pings

  /** Of absolute type: the multitouch protocol's events. */
  predicate IsAbsolute(e: InputEvent) {
    match (e.inputi32, e.inputf64)
    case (Some(i), _) => i.type_ == EV_ABS
    case (None, Some(f)) => f.type_ == EV_ABS
    case (None, None) => false
  }

  predicate NoneAbsolute(f: Frame) {
    forall i | 0 <= i < |f| :: !IsAbsolute(f[i])
  }

  /** Frames that share a write come from no touchpad and hold no absolute event. */
  lemma MergedFramesArePlain(a: Action, i: nat)
    requires GoodWrite(a) && a.Write? && |a.frames| > 1 && i < |a.frames|
    ensures a.cls != Some(Touchpad) && NoneAbsolute(a.frames[i])
  {
    assert !Own(a.cls, a.frames[i]);
    forall j | 0 <= j < |a.frames[i]| ensures !IsAbsolute(a.frames[i][j]) {
      assert TypeOf(a.frames[i][j]) != Some(EV_ABS);
    }
  }

  /** Input of one class, each frame with something left of it once scaled and nothing absolute. */
  predicate Burst(ms: seq<Message>, cls: Option<DeviceClass>, scales: Scales, r: Remainders)
    decreases |ms|
  {
    ms == [] ||
      (ms[0].Input? && ms[0].cls == cls &&
         var o := ScaleAll(scales, r, ms[0].events);
         o.events != [] && NoneAbsolute(o.events) && Burst(ms[1..], cls, scales, o.remainders))
  }

  function ScaledFrames(ms: seq<Message>, cls: Option<DeviceClass>, scales: Scales, r: Remainders): seq<Frame>
    requires Burst(ms, cls, scales, r)
    decreases |ms|
  {
    if ms == [] then []
    else
      var o := ScaleAll(scales, r, ms[0].events);
      [o.events] + ScaledFrames(ms[1..], cls, scales, o.remainders)
  }

  lemma PlainIsQueued(w: World, cls: Option<DeviceClass>, f: Frame)
    requires f != [] && NoneAbsolute(f) && cls != Some(Touchpad) && (w.queue.frames == [] || w.queue.cls == cls)
    ensures QueueInput(w, cls, f) == w.(queue := Queue(w.queue.frames + [f], cls))
  {
    assert !NeedsOwnSyn(f) by {
      assert forall i | 0 <= i < |f| :: !IsAbsolute(f[i]);
    }
  }

  lemma {:induction false} BurstIsQueued(w: World, ms: seq<Message>, cls: Option<DeviceClass>, scales: Scales, now: int)
    requires Burst(ms, cls, scales, w.remainders) && cls != Some(Touchpad) && (w.queue.frames == [] || w.queue.cls == cls)
    ensures var w' := HandleAll(w, ms, scales, now);
      && w'.actions == w.actions
      && w'.queue == if ms == [] then w.queue else Queue(w.queue.frames + ScaledFrames(ms, cls, scales, w.remainders), cls)
    decreases |ms|
  {
    hide ScaleAll, QueueInput, NoneAbsolute;
    if ms != [] {
      var o := ScaleAll(scales, w.remainders, ms[0].events);
      var next := w.(remainders := o.remainders, queue := Queue(w.queue.frames + [o.events], cls));
      PlainIsQueued(w.(remainders := o.remainders), cls, o.events);
      assert Handle(w, ms[0], scales, now) == next;
      BurstIsQueued(next, ms[1..], cls, scales, now);
      Assoc(w.queue.frames, [o.events], ScaledFrames(ms[1..], cls, scales, o.remainders));
      assert w.queue.frames + [o.events] + [] == w.queue.frames + [o.events];
    }
  }

  /** A burst of input of one class that is not a touchpad's is one device write. */
  lemma BurstIsOneWrite(w: World, ms: seq<Message>, cls: Option<DeviceClass>, scales: Scales, now: int)
    requires w.queue == EMPTY && ms != [] && Burst(ms, cls, scales, w.remainders) && cls != Some(Touchpad)
    ensures Flush(HandleAll(w, ms, scales, now)).actions == w.actions + [Write(cls, ScaledFrames(ms, cls, scales, w.remainders))]
  {
    hide HandleAll, ScaleAll;
    BurstIsQueued(w, ms, cls, scales, now);
    var frames := ScaledFrames(ms, cls, scales, w.remainders);
    assert [] + frames == frames;
  }

  function Pings(ms: seq<Message>): nat {
    if ms == [] then 0 else (if ms[0] == Ping then 1 else 0) + Pings(ms[1..])
  }

  lemma {:induction false} PingsConcat(a: seq<Message>, b: seq<Message>)
    ensures Pings(a + b) == Pings(a) + Pings(b)
  {
    if a == [] {
      assert a + b == b;
    } else {
      assert (a + b)[1..] == a[1..] + b;
      PingsConcat(a[1..], b);
    }
  }

  lemma FlushPongsNothing(w: World)
    ensures Occurrences(Flush(w).actions, Pong) == Occurrences(w.actions, Pong)
  {
    OccurrencesNext(w.actions, Write(w.queue.cls, w.queue.frames), Pong);
    assert w.actions + [] == w.actions;
  }

  lemma DonePongs(w: World, a: Action)
    ensures Occurrences(Done(w, a).actions, Pong) == Occurrences(w.actions, Pong) + if a == Pong then 1 else 0
  {
    OccurrencesNext(w.actions, a, Pong);
  }

  lemma SwitchPongsNothing(w: World, enabled: bool, now: int)
    ensures Occurrences(HandleSwitch(w, enabled, now).actions, Pong) == Occurrences(w.actions, Pong)
  {
    hide Occurrences, Flush;
    FlushPongsNothing(w);
    DonePongs(Flush(w), ReleaseAll);
    DonePongs(Flush(w), AnnounceTypes);
    DonePongs(Done(Flush(w), ReleaseAll), AnnounceTypes);
  }

  lemma InputPongsNothing(w: World, cls: Option<DeviceClass>, f: Frame)
    ensures Occurrences(QueueInput(w, cls, f).actions, Pong) == Occurrences(w.actions, Pong)
  {
    hide Occurrences, Flush, Own;
    FlushPongsNothing(w);
    DonePongs(Flush(w), Write(cls, [f]));
  }

  lemma HandlePongs(w: World, m: Message, scales: Scales, now: int)
    ensures Occurrences(Handle(w, m, scales, now).actions, Pong) == Occurrences(w.actions, Pong) + if m == Ping then 1 else 0
  {
    hide Occurrences, Flush, QueueInput, HandleSwitch, ScaleAll;
    match m
    case Switch(enabled) => SwitchPongsNothing(w, enabled, now);
    case Input(cls, events) =>
      var scaled := ScaleAll(scales, w.remainders, events);
      InputPongsNothing(w.(remainders := scaled.remainders), cls, scaled.events);
    case ClipboardTypes(types) =>
      FlushPongsNothing(w);
      DonePongs(Flush(w), SetRemoteTypes(types));
    case Ping => DonePongs(w, Pong);
    case EdgeInfo(_) =>
    case EdgeInfoRevoke(_) =>
  }

  /** Every ping of a wake is answered, once. */
  lemma {:induction false} PongsAnswerPings(w: World, ms: seq<Message>, scales: Scales, now: int)
    ensures Occurrences(Flush(HandleAll(w, ms, scales, now)).actions, Pong) == Occurrences(w.actions, Pong) + Pings(ms)
    decreases |ms|
  {
    hide Handle, Flush, Occurrences;
    if ms == [] {
      FlushPongsNothing(w);
    } else {
      HandlePongs(w, ms[0], scales, now);
      PongsAnswerPings(Handle(w, ms[0], scales, now), ms[1..], scales, now);
    }
  }
}
