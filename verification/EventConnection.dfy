/** The events stream from network bytes to device writes, and the connection object doing it. */
module EventConnection {
  import DeferredAnnounce
  import opened BulkStream
  import opened DeltaScaler
  import opened EventStream
  import opened Seqs
  import opened Wrappers

  type Decoder = seq<Byte> -> Option<EventStream.Message>

  // ----- Frames out of bytes

  /** The messages of the complete frames, up to the first that does not decode, and what follows. */
  datatype Parse = Parse(ok: bool, messages: seq<EventStream.Message>, rest: seq<Byte>)

  function Parsed(b: seq<Byte>, decode: Decoder): Parse
    decreases |b|
  {
    if !HasCompleteFrame(b) then Parse(true, [], b)
    else
      match decode(b[..FrameEnd(b)])
      case None => Parse(false, [], b)
      case Some(m) =>
        var below := Parsed(b[FrameEnd(b) + 1..], decode);
        Parse(below.ok, [m] + below.messages, below.rest)
  }

  lemma FirstParsed(b: seq<Byte>, decode: Decoder)
    requires HasCompleteFrame(b)
    ensures var z := FrameEnd(b);
      var decoded, below := decode(b[..z]), Parsed(b[z + 1..], decode);
      Parsed(b, decode) == if decoded.None? then Parse(false, [], b) else Parse(below.ok, [decoded.value] + below.messages, below.rest)
  {
  }

  lemma {:induction false} ParsedConcat(a: seq<Byte>, b: seq<Byte>, decode: Decoder)
    requires Parsed(a, decode).ok
    ensures var p := Parsed(a, decode);
      var q := Parsed(p.rest + b, decode);
      Parsed(a + b, decode) == Parse(q.ok, p.messages + q.messages, q.rest)
    decreases |a|
  {
    hide FrameEnd, Parsed;
    if HasCompleteFrame(a) {
      var z := FrameEnd(a);
      FrameWithMore(a, b);
      FirstParsed(a, decode);
      FirstParsed(a + b, decode);
      ParsedConcat(a[z + 1..], b, decode);
      var below := Parsed(a[z + 1..], decode);
      Assoc([decode(a[..z]).value], below.messages, Parsed(below.rest + b, decode).messages);
    } else {
      var q := Parsed(a + b, decode);
      NothingMore(a, decode);
      assert [] + q.messages == q.messages;
    }
  }

  lemma FrameWithMore(a: seq<Byte>, b: seq<Byte>)
    requires HasCompleteFrame(a)
    ensures var z := FrameEnd(a);
      HasCompleteFrame(a + b) && FrameEnd(a + b) == z && (a + b)[..z] == a[..z] && (a + b)[z + 1..] == a[z + 1..] + b
  {
    FrameEndBelow(a, b);
  }

  lemma {:induction false} ParsedRest(b: seq<Byte>, decode: Decoder)
    ensures Parsed(b, decode).ok ==> !HasCompleteFrame(Parsed(b, decode).rest)
    decreases |b|
  {
    if HasCompleteFrame(b) && decode(b[..FrameEnd(b)]).Some? {
      ParsedRest(b[FrameEnd(b) + 1..], decode);
    }
  }

  // ----- Wakes

  /** The partial frame buffered and the rest of the connection; `Lost` once an error resets it. */
  datatype Stream = Live(buffer: seq<Byte>, world: World) | Lost(actions: seq<Action>)

  /** One wake: a chunk of bytes, handled at a time, or the deferred announcement's timer running
    * out. */
  datatype Wake = Chunk(bytes: seq<Byte>, now: int) | Fires(at: int)

  function Arrived(x: Wake): seq<Byte> {
    if x.Chunk? then x.bytes else []
  }

  /** handle_event_messages after the chunk was appended. */
  function Read(st: Stream, bytes: seq<Byte>, now: int, decode: Decoder, scales: Scales): Stream
    requires st.Live?
  {
    if Oversized(st.buffer + bytes) then Lost(st.world.actions)
    else
      var p := Parsed(st.buffer + bytes, decode);
      var w := HandleAll(st.world, p.messages, scales, now);
      if p.ok then Live(p.rest, Flush(w)) else Lost(w.actions)
  }

  function Woken(st: Stream, x: Wake, decode: Decoder, scales: Scales): Stream {
    if st.Lost? then st
    else match x
      case Chunk(bytes, now) => Read(st, bytes, now, decode, scales)
      case Fires(at) => st.(world := Expire(st.world, at))
  }

  function WokenAll(st: Stream, xs: seq<Wake>, decode: Decoder, scales: Scales): Stream
    decreases |xs|
  {
    if xs == [] then st else WokenAll(Woken(st, xs[0], decode, scales), xs[1..], decode, scales)
  }

  function BytesOf(xs: seq<Wake>): seq<Byte> {
    if xs == [] then [] else Arrived(xs[0]) + BytesOf(xs[1..])
  }

  predicate Ready(st: Stream) {
    st.Live? ==> st.world.queue == EMPTY && !HasCompleteFrame(st.buffer)
  }

  lemma {:induction false} ExpectedConcat(a: seq<EventStream.Message>, b: seq<EventStream.Message>, scales: Scales, r: Remainders)
    ensures Expected(a + b, scales, r) == Expected(a, scales, r) + Expected(b, scales, ScaledAll(a, scales, r))
    ensures ScaledAll(a + b, scales, r) == ScaledAll(b, scales, ScaledAll(a, scales, r))
    decreases |a|
  {
    hide Asked, EventStream.Scaled;
    if a == [] {
      assert a + b == b;
    } else {
      var next := EventStream.Scaled(a[0], scales, r);
      assert (a + b)[1..] == a[1..] + b;
      ExpectedConcat(a[1..], b, scales, next);
      Assoc(Asked(a[0], scales, r), Expected(a[1..], scales, next), Expected(b, scales, ScaledAll(a[1..], scales, next)));
    }
  }

  lemma ReadKeepsOrder(st: Stream, bytes: seq<Byte>, now: int, decode: Decoder, scales: Scales)
    requires Ready(st) && st.Live? && Read(st, bytes, now, decode, scales).Live?
    ensures var st', p := Read(st, bytes, now, decode, scales), Parsed(st.buffer + bytes, decode);
      && Ready(st') && p.ok && st'.buffer == p.rest
      && st'.world.remainders == ScaledAll(p.messages, scales, st.world.remainders)
      && Trace(st'.world.actions) == Trace(st.world.actions) + Expected(p.messages, scales, st.world.remainders)
  {
    var p := Parsed(st.buffer + bytes, decode);
    ParsedRest(st.buffer + bytes, decode);
    hide Parsed, HandleAll, Trace, Expected, ScaledAll, FrameEnd;
    WakeKeepsOrder(st.world, p.messages, scales, now);
    HandleAllKeeps(st.world, p.messages, scales, now);
  }

  lemma ExpireKeepsOrder(w: World, at: int)
    ensures Trace(Expire(w, at).actions) == Trace(w.actions)
    ensures Expire(w, at).queue == w.queue && Expire(w, at).remainders == w.remainders
  {
    TraceNext(w.actions, AnnounceTypes);
    hide Trace;
    assert Trace(w.actions) + [] == Trace(w.actions);
  }

  lemma NothingArrives(buffer: seq<Byte>, decode: Decoder)
    requires !HasCompleteFrame(buffer)
    ensures Parsed(buffer + [], decode) == Parse(true, [], buffer)
  {
    assert buffer + [] == buffer;
  }

  lemma WokenKeepsOrder(st: Stream, x: Wake, decode: Decoder, scales: Scales)
    requires Ready(st) && st.Live? && Woken(st, x, decode, scales).Live?
    ensures var st', p := Woken(st, x, decode, scales), Parsed(st.buffer + Arrived(x), decode);
      && Ready(st') && p.ok && st'.buffer == p.rest
      && st'.world.remainders == ScaledAll(p.messages, scales, st.world.remainders)
      && Trace(st'.world.actions) == Trace(st.world.actions) + Expected(p.messages, scales, st.world.remainders)
  {
    hide Parsed, Read, Trace, FrameEnd, Expire;
    match x
    case Chunk(bytes, now) => ReadKeepsOrder(st, bytes, now, decode, scales);
    case Fires(at) =>
      NothingArrives(st.buffer, decode);
      ExpireKeepsOrder(st.world, at);
      assert Trace(st.world.actions) + [] == Trace(st.world.actions);
  }

  /** Over any number of wakes without an error, however the bytes were cut, the frames written, with
    * the releases and types among them, are those of the whole stream in order, and nothing is left
    * queued. */
  lemma {:induction false} CutsKeepOrder(st: Stream, xs: seq<Wake>, decode: Decoder, scales: Scales)
    requires Ready(st) && st.Live? && WokenAll(st, xs, decode, scales).Live?
    ensures var st', p := WokenAll(st, xs, decode, scales), Parsed(st.buffer + BytesOf(xs), decode);
      && Ready(st') && p.ok && st'.buffer == p.rest
      && st'.world.remainders == ScaledAll(p.messages, scales, st.world.remainders)
      && Trace(st'.world.actions) == Trace(st.world.actions) + Expected(p.messages, scales, st.world.remainders)
    decreases |xs|
  {
    hide Woken, Parsed, Trace, Ready;
    if xs == [] {
      NoWake(st, decode, scales);
    } else {
      var next := Woken(st, xs[0], decode, scales);
      if next.Lost? {
        StaysLost(next, xs[1..], decode, scales);
      } else {
        WokenKeepsOrder(st, xs[0], decode, scales);
        CutsKeepOrder(next, xs[1..], decode, scales);
        JoinParses(st, next, xs, decode);
        var p, q := Parsed(st.buffer + Arrived(xs[0]), decode).messages, Parsed(next.buffer + BytesOf(xs[1..]), decode).messages;
        JoinTraces(Trace(st.world.actions), p, q, scales, st.world.remainders);
      }
    }
  }

  lemma NoWake(st: Stream, decode: Decoder, scales: Scales)
    requires st.Live? && Ready(st)
    ensures Parsed(st.buffer + [], decode) == Parse(true, [], st.buffer)
    ensures ScaledAll([], scales, st.world.remainders) == st.world.remainders
    ensures Trace(st.world.actions) == Trace(st.world.actions) + Expected([], scales, st.world.remainders)
  {
    NothingArrives(st.buffer, decode);
    hide Trace, Parsed;
    assert Trace(st.world.actions) + [] == Trace(st.world.actions);
  }

  lemma JoinParses(st: Stream, next: Stream, xs: seq<Wake>, decode: Decoder)
    requires xs != [] && st.Live? && next.Live? && Parsed(st.buffer + Arrived(xs[0]), decode).ok
    requires next.buffer == Parsed(st.buffer + Arrived(xs[0]), decode).rest
    ensures var p, q := Parsed(st.buffer + Arrived(xs[0]), decode), Parsed(next.buffer + BytesOf(xs[1..]), decode);
      Parsed(st.buffer + BytesOf(xs), decode) == Parse(q.ok, p.messages + q.messages, q.rest)
  {
    hide Parsed;
    Assoc(st.buffer, Arrived(xs[0]), BytesOf(xs[1..]));
    ParsedConcat(st.buffer + Arrived(xs[0]), BytesOf(xs[1..]), decode);
  }

  lemma JoinTraces(t: seq<Item>, p: seq<EventStream.Message>, q: seq<EventStream.Message>, scales: Scales, r: Remainders)
    ensures t + Expected(p, scales, r) + Expected(q, scales, ScaledAll(p, scales, r)) == t + Expected(p + q, scales, r)
    ensures ScaledAll(q, scales, ScaledAll(p, scales, r)) == ScaledAll(p + q, scales, r)
  {
    hide Expected, ScaledAll;
    ExpectedConcat(p, q, scales, r);
    Assoc(t, Expected(p, scales, r), Expected(q, scales, ScaledAll(p, scales, r)));
  }

  lemma {:induction false} StaysLost(st: Stream, xs: seq<Wake>, decode: Decoder, scales: Scales)
    requires st.Lost?
    ensures WokenAll(st, xs, decode, scales) == st
    decreases |xs|
  {
    if xs != [] {
      StaysLost(st, xs[1..], decode, scales);
    }
  }

  // ----- What every run keeps, errors included

  /** Every write keeps the frame boundaries that matter. */
  predicate KeepsFrames(st: Stream) {
    match st
    case Live(_, world) => GoodWrites(world)
    case Lost(actions) => forall i | 0 <= i < |actions| :: GoodWrite(actions[i])
  }

  lemma WokenKeepsFrames(st: Stream, x: Wake, decode: Decoder, scales: Scales)
    requires KeepsFrames(st)
    ensures KeepsFrames(Woken(st, x, decode, scales))
  {
    hide Parsed, HandleAll, Flush, GoodWrite, Mergeable;
    if st.Live? && x.Chunk? {
      FramesAreKept(st.world, Parsed(st.buffer + x.bytes, decode).messages, scales, x.now);
    } else if st.Live? {
      AnnouncingIsNoWrite();
    }
  }

  lemma AnnouncingIsNoWrite()
    ensures GoodWrite(AnnounceTypes)
  {
  }

  /** Over any number of wakes, however the bytes were cut, each write is one frame that must be on
    * its own, or frames of one class none of which must. */
  lemma {:induction false} CutsKeepFrames(st: Stream, xs: seq<Wake>, decode: Decoder, scales: Scales)
    requires KeepsFrames(st)
    ensures KeepsFrames(WokenAll(st, xs, decode, scales))
    decreases |xs|
  {
    if xs != [] {
      WokenKeepsFrames(st, xs[0], decode, scales);
      hide KeepsFrames, Woken;
      CutsKeepFrames(Woken(st, xs[0], decode, scales), xs[1..], decode, scales);
    }
  }

  function ActionsOf(st: Stream): seq<Action> {
    match st
    case Live(_, world) => world.actions
    case Lost(actions) => actions
  }

  /** Announcements number at most the deactivations handled and one first activation. */
  predicate FewAnnouncements(st: Stream) {
    && (st.Live? ==> Quiet(st.world))
    && Occurrences(ActionsOf(st), AnnounceTypes) <= Occurrences(ActionsOf(st), ReleaseAll) + 1
  }

  lemma QuietIsFew(w: World)
    requires Quiet(w)
    ensures Occurrences(w.actions, AnnounceTypes) <= Occurrences(w.actions, ReleaseAll) + 1
  {
  }

  lemma WokenAnnouncesFew(st: Stream, x: Wake, decode: Decoder, scales: Scales)
    requires FewAnnouncements(st)
    ensures FewAnnouncements(Woken(st, x, decode, scales))
  {
    hide Parsed, HandleAll, Flush, Expire, Quiet, Occurrences;
    if st.Live? && x.Chunk? {
      var p := Parsed(st.buffer + x.bytes, decode);
      HandleAllIsQuiet(st.world, p.messages, scales, x.now);
      QuietIsFew(HandleAll(st.world, p.messages, scales, x.now));
      QuietIsFew(Flush(HandleAll(st.world, p.messages, scales, x.now)));
    } else if st.Live? {
      ExpireIsQuiet(st.world, x.at);
      QuietIsFew(Expire(st.world, x.at));
    }
  }

  /** Over any number of wakes and expiries the announcements in the log number at most the
    * deactivations, each of which released the keys, and one first activation. */
  lemma {:induction false} AnnouncementsAreBounded(st: Stream, xs: seq<Wake>, decode: Decoder, scales: Scales)
    requires FewAnnouncements(st)
    ensures FewAnnouncements(WokenAll(st, xs, decode, scales))
    decreases |xs|
  {
    if xs != [] {
      WokenAnnouncesFew(st, xs[0], decode, scales);
      hide FewAnnouncements, Woken;
      AnnouncementsAreBounded(Woken(st, xs[0], decode, scales), xs[1..], decode, scales);
    }
  }

  /** A fresh connection. */
  const CONNECTED := Live([], World(DeferredAnnounce.CONNECTED, map[], EventStream.EMPTY, []))

  /** It meets what the theorems above start from. */
  lemma StartsFine()
    ensures Ready(CONNECTED) && KeepsFrames(CONNECTED) && FewAnnouncements(CONNECTED)
  {
  }

  // ----- Pings

  lemma ExpirePongsNothing(w: World, at: int)
    ensures Occurrences(Expire(w, at).actions, Pong) == Occurrences(w.actions, Pong)
  {
    DonePongs(w, AnnounceTypes);
  }

  lemma WokenPongs(st: Stream, x: Wake, decode: Decoder, scales: Scales)
    requires Ready(st) && st.Live? && Woken(st, x, decode, scales).Live?
    ensures Occurrences(Woken(st, x, decode, scales).world.actions, Pong) ==
            Occurrences(st.world.actions, Pong) + Pings(Parsed(st.buffer + Arrived(x), decode).messages)
  {
    hide Parsed, Occurrences, Expire, HandleAll, Flush, FrameEnd;
    match x
    case Chunk(bytes, now) => PongsAnswerPings(st.world, Parsed(st.buffer + bytes, decode).messages, scales, now);
    case Fires(at) =>
      NothingArrives(st.buffer, decode);
      ExpirePongsNothing(st.world, at);
  }

  /** Over any number of wakes without an error every ping of the stream is answered once. */
  lemma {:induction false} CutsAnswerPings(st: Stream, xs: seq<Wake>, decode: Decoder, scales: Scales)
    requires Ready(st) && st.Live? && WokenAll(st, xs, decode, scales).Live?
    ensures Occurrences(WokenAll(st, xs, decode, scales).world.actions, Pong) ==
            Occurrences(st.world.actions, Pong) + Pings(Parsed(st.buffer + BytesOf(xs), decode).messages)
    decreases |xs|
  {
    hide Woken, Parsed, Occurrences, Ready;
    if xs == [] {
      NoWake(st, decode, scales);
    } else {
      var next := Woken(st, xs[0], decode, scales);
      if next.Lost? {
        StaysLost(next, xs[1..], decode, scales);
      } else {
        WokenKeepsOrder(st, xs[0], decode, scales);
        WokenPongs(st, xs[0], decode, scales);
        CutsAnswerPings(next, xs[1..], decode, scales);
        JoinParses(st, next, xs, decode);
        PingsConcat(Parsed(st.buffer + Arrived(xs[0]), decode).messages, Parsed(next.buffer + BytesOf(xs[1..]), decode).messages);
      }
    }
  }

  /** Over any run, errors included, frames that share a write come from no touchpad and hold no absolute
    * event. */
  lemma MergedWritesArePlain(st: Stream, xs: seq<Wake>, decode: Decoder, scales: Scales, k: nat, i: nat)
    requires KeepsFrames(st)
    requires var actions := ActionsOf(WokenAll(st, xs, decode, scales));
      k < |actions| && actions[k].Write? && |actions[k].frames| > 1 && i < |actions[k].frames|
    ensures var a := ActionsOf(WokenAll(st, xs, decode, scales))[k];
      a.cls != Some(Touchpad) && NoneAbsolute(a.frames[i])
  {
    hide WokenAll, GoodWrite, Mergeable, NoneAbsolute;
    CutsKeepFrames(st, xs, decode, scales);
    MergedFramesArePlain(ActionsOf(WokenAll(st, xs, decode, scales))[k], i);
  }

  // ----- What is parsed, and only faults lose the connection

  function Flattened(raws: seq<seq<Byte>>): seq<Byte> {
    if raws == [] then [] else raws[0] + Flattened(raws[1..])
  }

  /** A frame: up to a zero and no zero before it, decoding to the message. */
  predicate FrameFor(raw: seq<Byte>, m: EventStream.Message, decode: Decoder) {
    raw != [] && raw[|raw| - 1] == 0 && (forall i | 0 <= i < |raw| - 1 :: raw[i] != 0) && decode(raw[..|raw| - 1]) == Some(m)
  }

  predicate FramesFor(raws: seq<seq<Byte>>, ms: seq<EventStream.Message>, decode: Decoder) {
    |raws| == |ms| && forall i | 0 <= i < |ms| :: FrameFor(raws[i], ms[i], decode)
  }

  lemma FirstFrame(b: seq<Byte>, decode: Decoder)
    requires HasCompleteFrame(b) && decode(b[..FrameEnd(b)]).Some?
    ensures FrameFor(b[..FrameEnd(b) + 1], decode(b[..FrameEnd(b)]).value, decode)
  {
    assert b[..FrameEnd(b) + 1][..FrameEnd(b)] == b[..FrameEnd(b)];
  }

  /** The bytes are the frames of the messages parsed and the rest, which begins with a frame that does
    * not decode or holds no complete one. */
  lemma {:induction false} ParsedIsWhole(b: seq<Byte>, decode: Decoder) returns (raws: seq<seq<Byte>>, rest: seq<Byte>)
    ensures var p := Parsed(b, decode);
      && FramesFor(raws, p.messages, decode) && Flattened(raws) + rest == b
      && (p.ok ==> p.rest == rest && !HasCompleteFrame(rest))
      && (!p.ok ==> HasCompleteFrame(rest) && decode(rest[..FrameEnd(rest)]).None?)
    decreases |b|
  {
    hide FrameEnd, FrameFor, Parsed, Flattened, FramesFor;
    if HasCompleteFrame(b) && decode(b[..FrameEnd(b)]).Some? {
      var z := FrameEnd(b);
      FirstParsed(b, decode);
      raws, rest := ParsedIsWhole(b[z + 1..], decode);
      FirstFrame(b, decode);
      OneMoreFrame(b[..z + 1], decode(b[..z]).value, raws, Parsed(b[z + 1..], decode).messages, decode);
      Assoc(b[..z + 1], Flattened(raws), rest);
      raws := [b[..z + 1]] + raws;
      SplitAt(b, z + 1);
    } else {
      raws, rest := [], b;
      NothingMore(b, decode);
    }
  }

  lemma OneMoreFrame(raw: seq<Byte>, m: EventStream.Message, raws: seq<seq<Byte>>, ms: seq<EventStream.Message>, decode: Decoder)
    requires FrameFor(raw, m, decode) && FramesFor(raws, ms, decode)
    ensures FramesFor([raw] + raws, [m] + ms, decode) && Flattened([raw] + raws) == raw + Flattened(raws)
  {
    hide FrameFor;
    assert ([raw] + raws)[1..] == raws;
  }

  lemma NothingMore(b: seq<Byte>, decode: Decoder)
    requires !HasCompleteFrame(b) || decode(b[..FrameEnd(b)]).None?
    ensures Parsed(b, decode) == Parse(!HasCompleteFrame(b), [], b) && FramesFor([], [], decode) && Flattened([]) + b == b
  {
  }

  /** A chunk loses the connection if and only if it makes the buffer larger than a mebibyte, or a frame
    * in it does not decode. */
  lemma LostExactly(st: Stream, bytes: seq<Byte>, now: int, decode: Decoder, scales: Scales)
    requires st.Live?
    ensures Woken(st, Chunk(bytes, now), decode, scales).Lost?
            <==> |st.buffer + bytes| > 1024 * 1024 || !Parsed(st.buffer + bytes, decode).ok
  {
    hide Parsed, HandleAll, Flush;
  }
}
