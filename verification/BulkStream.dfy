/** The client's bulk stream: frames and payloads out of arbitrary chunks. */
module BulkStream {
  import opened Seqs
  import opened Wrappers

  // Frames and raw clipboard payloads are reassembled from network chunks, and replies matched with
  // pending fetches (`src/client.rs`). A frame is the bytes up to the first zero; decoding it is a
  // parameter.

  type Byte = b: int | 0 <= b < 256

  /** Longest run of buffered frame bytes. */
  const MAX_FRAME_BUFFER_BYTES: nat := 1024 * 1024

  datatype Header = Header(requestId: nat, length: nat, requestedType: string, dataType: Option<string>)

  datatype Message = ClipboardRequest(requestId: nat) | DiagnosticsRequest(requestId: nat) | ClipboardHeader(header: Header)

  datatype Config = Config(decode: seq<Byte> -> Option<Message>, maxClipboardBytes: nat)

  /** A payload in progress; `fetch` is the request it answers, none when the id was unknown. */
  datatype Payload = Payload(header: Header, fetch: Option<nat>, bytes: seq<Byte>, remaining: nat)

  /** What the connection did, in order: a frame it handled (with its raw bytes), and a payload it
    * delivered to a fetch or, with no fetch, swallowed. */
  datatype Event =
    | Handled(raw: seq<Byte>, message: Message)
    | Body(header: Header, fetch: Option<nat>, bytes: seq<Byte>)

  /** `Closed` once an error resets the connection. */
  datatype State =
    | Open(buffer: seq<Byte>, incoming: Option<Payload>, pending: map<nat, nat>, log: seq<Event>)
    | Closed(log: seq<Event>)

  /** The first zero, or the length when there is none. */
  function FrameEnd(s: seq<Byte>): (z: nat)
    ensures z <= |s| && (z < |s| ==> s[z] == 0) && forall i | 0 <= i < z :: s[i] != 0
  {
    if s == [] || s[0] == 0 then 0 else 1 + FrameEnd(s[1..])
  }

  predicate HasCompleteFrame(s: seq<Byte>) {
    FrameEnd(s) < |s|
  }

  function Fetched(pending: map<nat, nat>, id: nat): Option<nat> {
    if id in pending then Some(pending[id]) else None
  }

  // ----- The specification

  /** Whether the next thing in the buffer is a complete frame. */
  predicate Ready(st: State) {
    st.Open? && st.incoming.None? && HasCompleteFrame(st.buffer)
  }

  /** The first buffered frame handled, with its payload as far as it has arrived. */
  function Step(st: State, c: Config): (next: State)
    requires Ready(st)
    ensures next.Open? ==> |next.buffer| < |st.buffer|
  {
    var z := FrameEnd(st.buffer);
    AfterFrame(c.decode(st.buffer[..z]), st.buffer[..z + 1], st.buffer[z + 1..], st.pending, st.log, c)
  }

  /** A frame was decoded and `rest` follows it. */
  function AfterFrame(decoded: Option<Message>, raw: seq<Byte>, rest: seq<Byte>,
                      pending: map<nat, nat>, log: seq<Event>, c: Config): (next: State)
    ensures next.Open? ==> |next.buffer| <= |rest|
  {
    match decoded
    case None => Closed(log)
    case Some(message) =>
      if message.ClipboardHeader? then WithPayload(message.header, rest, pending, log + [Handled(raw, message)], c)
      else Open(rest, None, pending, log + [Handled(raw, message)])
  }

  /** A header was read and `rest` follows it. */
  function WithPayload(h: Header, rest: seq<Byte>, pending: map<nat, nat>, log: seq<Event>, c: Config): (next: State)
    ensures next.Open? ==> |next.buffer| <= |rest|
  {
    var fetch, left := Fetched(pending, h.requestId), pending - {h.requestId};
    if h.length > c.maxClipboardBytes then Closed(log)
    else if h.length <= |rest| then Open(rest[h.length..], None, left, log + [Body(h, fetch, rest[..h.length])])
    else Open([], Some(Payload(h, fetch, rest, h.length - |rest|)), left, log)
  }

  function Size(st: State): nat {
    if st.Open? then |st.buffer| + 1 else 0
  }

  /** handle_bulk_messages from the first buffered byte on. */
  function Drain(st: State, c: Config): State
    decreases Size(st)
  {
    if Ready(st) then Drain(Step(st, c), c) else st
  }

  predicate Oversized(s: seq<Byte>) {
    |s| > MAX_FRAME_BUFFER_BYTES
  }

  /** Whether a chunk makes the frame buffer overflow before it is parsed. */
  predicate Overflows(st: State, chunk: seq<Byte>) {
    st.Open? &&
      match st.incoming
      case Some(p) => p.remaining < |chunk| && Oversized(st.buffer + chunk[p.remaining..])
      case None => Oversized(st.buffer + chunk)
  }

  /** The chunk taken into the payload in progress first, and what is left into the frame buffer. */
  function Absorbed(st: State, chunk: seq<Byte>): State {
    if st.Closed? then st
    else if st.incoming.None? then st.(buffer := st.buffer + chunk)
    else
      var p := st.incoming.value;
      if p.remaining > |chunk| then
        st.(incoming := Some(p.(bytes := p.bytes + chunk, remaining := p.remaining - |chunk|)))
      else
        Open(st.buffer + chunk[p.remaining..], None, st.pending,
             st.log + [Body(p.header, p.fetch, p.bytes + chunk[..p.remaining])])
  }

  /** handle_bulk_data_or_messages, `bounded` saying whether the frame buffer's ceiling is enforced. */
  function Feed(st: State, chunk: seq<Byte>, c: Config, bounded: bool): State {
    if bounded && Overflows(st, chunk) then Closed(st.log) else Drain(Absorbed(st, chunk), c)
  }

  // ----- The invariant between two steps

  predicate ValidPayload(p: Payload, c: Config) {
    p.remaining > 0 && |p.bytes| + p.remaining == p.header.length <= c.maxClipboardBytes
  }

  /** A payload in progress leaves nothing buffered; otherwise no complete frame is buffered. */
  predicate Valid(st: State, c: Config) {
    st.Open? ==>
      match st.incoming
      case Some(p) => st.buffer == [] && ValidPayload(p, c)
      case None => !HasCompleteFrame(st.buffer)
  }

  lemma {:induction false} DrainKeepsValid(st: State, c: Config)
    requires st.Open? ==> st.incoming.None? || Valid(st, c)
    ensures Valid(Drain(st, c), c)
    decreases Size(st)
  {
    if Ready(st) {
      DrainKeepsValid(Step(st, c), c);
    }
  }

  lemma FeedKeepsValid(st: State, chunk: seq<Byte>, c: Config, bounded: bool)
    requires Valid(st, c)
    ensures Valid(Feed(st, chunk, c, bounded), c)
  {
    DrainKeepsValid(Absorbed(st, chunk), c);
  }

  // ----- Where chunks are cut does not matter

  lemma FrameEndBelow(s: seq<Byte>, more: seq<Byte>)
    requires HasCompleteFrame(s)
    ensures FrameEnd(s + more) == FrameEnd(s)
  {
    assert (s + more)[FrameEnd(s)] == 0;
    assert forall i | 0 <= i < FrameEnd(s) :: (s + more)[i] == s[i];
  }

  function WithMore(st: State, more: seq<Byte>): State {
    if st.Open? then st.(buffer := st.buffer + more) else st
  }

  lemma PartsWithMore(st: State, more: seq<Byte>)
    requires Ready(st)
    ensures Ready(WithMore(st, more))
    ensures var z, b := FrameEnd(st.buffer), st.buffer + more;
      FrameEnd(b) == z && b[..z] == st.buffer[..z] && b[..z + 1] == st.buffer[..z + 1] && b[z + 1..] == st.buffer[z + 1..] + more
  {
    FrameEndBelow(st.buffer, more);
  }

  lemma PayloadFits(h: Header, rest: seq<Byte>, pending: map<nat, nat>, log: seq<Event>, more: seq<Byte>, c: Config)
    requires h.length <= |rest| || h.length > c.maxClipboardBytes
    ensures WithPayload(h, rest + more, pending, log, c) == WithMore(WithPayload(h, rest, pending, log, c), more)
  {
    if h.length <= |rest| {
      assert (rest + more)[h.length..] == rest[h.length..] + more && (rest + more)[..h.length] == rest[..h.length];
    }
  }

  /** A payload that runs past the buffer is completed by what is fed next. */
  lemma PayloadWithMore(h: Header, rest: seq<Byte>, pending: map<nat, nat>, log: seq<Event>, more: seq<Byte>, c: Config)
    requires |rest| < h.length <= c.maxClipboardBytes
    ensures Feed(WithPayload(h, rest, pending, log, c), more, c, false) ==
            Drain(WithPayload(h, rest + more, pending, log, c), c)
  {
    if h.length <= |rest + more| {
      assert (rest + more)[..h.length] == rest + more[..h.length - |rest|];
      assert (rest + more)[h.length..] == [] + more[h.length - |rest|..];
    }
  }

  /** A step that does not run into the end of the buffer is the same with more behind it. */
  lemma StepWithMore(st: State, more: seq<Byte>, c: Config)
    requires Ready(st)
    ensures Ready(WithMore(st, more))
    ensures var next := Step(st, c);
      !(next.Open? && next.incoming.Some?) ==> Step(WithMore(st, more), c) == WithMore(next, more)
  {
    PartsWithMore(st, more);
    var z := FrameEnd(st.buffer);
    var decoded, raw, rest := c.decode(st.buffer[..z]), st.buffer[..z + 1], st.buffer[z + 1..];
    hide FrameEnd, Ready;
    if decoded.Some? && decoded.value.ClipboardHeader? {
      var h := decoded.value.header;
      if h.length <= |rest| || h.length > c.maxClipboardBytes {
        PayloadFits(h, rest, st.pending, st.log + [Handled(raw, decoded.value)], more, c);
      }
    }
  }

  lemma StepThenFeed(st: State, more: seq<Byte>, c: Config)
    requires Ready(st) && Step(st, c).Open? && Step(st, c).incoming.Some?
    ensures Feed(Step(st, c), more, c, false) == Drain(WithMore(st, more), c)
  {
    PartsWithMore(st, more);
    DrainIsStep(WithMore(st, more), c);
    var z := FrameEnd(st.buffer);
    var message := c.decode(st.buffer[..z]).value;
    hide Feed, Drain, FrameEnd, Ready;
    PayloadWithMore(message.header, st.buffer[z + 1..], st.pending, st.log + [Handled(st.buffer[..z + 1], message)], more, c);
  }

  lemma DrainIsStep(st: State, c: Config)
    requires Ready(st)
    ensures Drain(st, c) == Drain(Step(st, c), c)
  {
  }

  /** Draining what is there and feeding more is draining it all at once. */
  lemma {:induction false} DrainThenFeed(st: State, more: seq<Byte>, c: Config)
    requires st.Open? ==> st.incoming.None?
    ensures Feed(Drain(st, c), more, c, false) == Drain(WithMore(st, more), c)
    decreases Size(st)
  {
    if Ready(st) {
      var next := Step(st, c);
      StepWithMore(st, more, c);
      DrainIsStep(st, c);
      if next.Open? && next.incoming.Some? {
        assert Drain(next, c) == next;
        hide Step, Ready;
        StepThenFeed(st, more, c);
      } else {
        DrainIsStep(WithMore(st, more), c);
        hide Feed, Step;
        DrainThenFeed(next, more, c);
      }
    }
  }

  /** Two chunks fed one after the other are one chunk. */
  lemma FeedTwo(st: State, a: seq<Byte>, b: seq<Byte>, c: Config)
    requires Valid(st, c)
    ensures Feed(Feed(st, a, c, false), b, c, false) == Feed(st, a + b, c, false)
  {
    if st.Open? {
      if st.incoming.Some? {
        var p := st.incoming.value;
        if p.remaining > |a| {
          PayloadTwo(p, a, b);
        } else {
          assert (a + b)[..p.remaining] == a[..p.remaining];
          var start := Open(st.buffer + a[p.remaining..], None, st.pending,
                            st.log + [Body(p.header, p.fetch, p.bytes + a[..p.remaining])]);
          assert st.buffer + (a + b)[p.remaining..] == start.buffer + b;
          DrainThenFeed(start, b, c);
        }
      } else {
        Assoc(st.buffer, a, b);
        DrainThenFeed(st.(buffer := st.buffer + a), b, c);
      }
    }
  }

  lemma PayloadTwo(p: Payload, a: seq<Byte>, b: seq<Byte>)
    requires p.remaining > |a|
    ensures p.bytes + (a + b) == (p.bytes + a) + b
    ensures p.remaining <= |a + b| ==>
      && p.bytes + (a + b)[..p.remaining] == (p.bytes + a) + b[..p.remaining - |a|]
      && (a + b)[p.remaining..] == b[p.remaining - |a|..]
  {
  }

  function FeedAll(st: State, chunks: seq<seq<Byte>>, c: Config, bounded: bool): State
    decreases |chunks|
  {
    if chunks == [] then st else FeedAll(Feed(st, chunks[0], c, bounded), chunks[1..], c, bounded)
  }

  function Joined(chunks: seq<seq<Byte>>): seq<Byte> {
    if chunks == [] then [] else chunks[0] + Joined(chunks[1..])
  }

  predicate AnyOverflows(st: State, chunks: seq<seq<Byte>>, c: Config)
    decreases |chunks|
  {
    chunks != [] && (Overflows(st, chunks[0]) || AnyOverflows(Feed(st, chunks[0], c, true), chunks[1..], c))
  }

  lemma FeedNothing(st: State, c: Config)
    requires Valid(st, c)
    ensures Feed(st, [], c, false) == st
  {
    if st.Open? {
      assert st.buffer + [] == st.buffer;
      if st.incoming.Some? {
        assert st.incoming.value.bytes + [] == st.incoming.value.bytes;
      }
    }
  }

  /** Without a ceiling, chunks fed one by one are the whole stream parsed at once. */
  lemma {:induction false} FeedAllIsFeed(st: State, chunks: seq<seq<Byte>>, c: Config)
    requires Valid(st, c)
    ensures FeedAll(st, chunks, c, false) == Feed(st, Joined(chunks), c, false)
    decreases |chunks|
  {
    if chunks == [] {
      FeedNothing(st, c);
    } else {
      FeedKeepsValid(st, chunks[0], c, false);
      FeedAllIsFeed(Feed(st, chunks[0], c, false), chunks[1..], c);
      FeedTwo(st, chunks[0], Joined(chunks[1..]), c);
    }
  }

  lemma {:induction false} BoundedIsUnbounded(st: State, chunks: seq<seq<Byte>>, c: Config)
    requires !AnyOverflows(st, chunks, c)
    ensures FeedAll(st, chunks, c, true) == FeedAll(st, chunks, c, false)
    decreases |chunks|
  {
    if chunks != [] {
      assert Feed(st, chunks[0], c, true) == Feed(st, chunks[0], c, false);
      BoundedIsUnbounded(Feed(st, chunks[0], c, true), chunks[1..], c);
    }
  }

  /** Every way of cutting a byte stream that hits no size error gives the parse of the whole stream:
    * the same messages, the same payloads for the same fetches, the same leftover state. */
  lemma CutsDoNotMatter(st: State, chunks: seq<seq<Byte>>, c: Config)
    requires Valid(st, c) && !AnyOverflows(st, chunks, c)
    ensures FeedAll(st, chunks, c, true) == Feed(st, Joined(chunks), c, false)
  {
    hide Feed, Valid;
    BoundedIsUnbounded(st, chunks, c);
    FeedAllIsFeed(st, chunks, c);
  }

  // ----- No byte is lost, added or reordered

  function BytesOf(e: Event): seq<Byte> {
    if e.Handled? then e.raw else e.bytes
  }

  function LogBytes(log: seq<Event>): seq<Byte> {
    if log == [] then [] else LogBytes(log[..|log| - 1]) + BytesOf(log[|log| - 1])
  }

  /** Everything received: frames and payloads consumed, then the payload in progress or the bytes
    * buffered. */
  function Received(st: State): seq<Byte> {
    match st
    case Closed(log) => LogBytes(log)
    case Open(buffer, incoming, _, log) =>
      LogBytes(log) + (if incoming.Some? then incoming.value.bytes else []) + buffer
  }

  lemma LogBytesNext(log: seq<Event>, e: Event)
    ensures LogBytes(log + [e]) == LogBytes(log) + BytesOf(e)
  {
    assert (log + [e])[..|log|] == log;
  }

  lemma Cut3(x: seq<Byte>, s: seq<Byte>, i: nat, j: nat)
    requires i <= j <= |s|
    ensures (x + s[..i]) + s[i..] == x + s
    ensures ((x + s[..i]) + s[i..j]) + s[j..] == x + s
  {
  }

  lemma WithPayloadConserves(h: Header, rest: seq<Byte>, pending: map<nat, nat>, log: seq<Event>, c: Config)
    ensures var next := WithPayload(h, rest, pending, log, c);
      if next.Open? then Received(next) == LogBytes(log) + rest else Received(next) == LogBytes(log)
  {
    if h.length <= |rest| {
      LogBytesNext(log, Body(h, Fetched(pending, h.requestId), rest[..h.length]));
      Cut3(LogBytes(log), rest, h.length, h.length);
      assert LogBytes(log) + [] == LogBytes(log);
    } else {
      assert LogBytes(log) + rest + [] == LogBytes(log) + rest;
    }
  }

  lemma AfterFrameConserves(decoded: Option<Message>, raw: seq<Byte>, rest: seq<Byte>,
                            pending: map<nat, nat>, log: seq<Event>, c: Config)
    ensures var next := AfterFrame(decoded, raw, rest, pending, log, c);
      if next.Open? then Received(next) == LogBytes(log) + raw + rest else Received(next) <= LogBytes(log) + raw + rest
  {
    if decoded.Some? {
      var log' := log + [Handled(raw, decoded.value)];
      LogBytesNext(log, Handled(raw, decoded.value));
      if decoded.value.ClipboardHeader? {
        hide LogBytes, WithPayload, Received;
        WithPayloadConserves(decoded.value.header, rest, pending, log', c);
      } else {
        hide LogBytes;
        assert LogBytes(log') + [] == LogBytes(log');
      }
    } else {
      Assoc(LogBytes(log), raw, rest);
    }
  }

  lemma {:induction false} StepConserves(st: State, c: Config)
    requires Ready(st)
    ensures var next := Step(st, c); if next.Open? then Received(next) == Received(st) else Received(next) <= Received(st)
  {
    var z := FrameEnd(st.buffer);
    var x, raw, rest := LogBytes(st.log), st.buffer[..z + 1], st.buffer[z + 1..];
    assert Received(st) == x + [] + st.buffer;
    assert Step(st, c) == AfterFrame(c.decode(st.buffer[..z]), raw, rest, st.pending, st.log, c);
    AfterFrameConserves(c.decode(st.buffer[..z]), raw, rest, st.pending, st.log, c);
    hide *;
    Cut3(x, st.buffer, z + 1, z + 1);
    assert x + [] == x;
  }

  lemma {:induction false} DrainConserves(st: State, c: Config)
    ensures var end := Drain(st, c); if end.Open? then Received(end) == Received(st) else Received(end) <= Received(st)
    decreases Size(st)
  {
    hide Received, Step;
    if Ready(st) {
      StepConserves(st, c);
      DrainConserves(Step(st, c), c);
    }
  }

  lemma PayloadConserves(st: State, chunk: seq<Byte>, c: Config)
    requires Valid(st, c) && st.Open? && st.incoming.Some?
    ensures Received(Absorbed(st, chunk)) == Received(st) + chunk
  {
    var p, x := st.incoming.value, LogBytes(st.log);
    assert Received(st) == x + p.bytes;
    if p.remaining > |chunk| {
      Assoc(x, p.bytes, chunk);
      assert Received(Absorbed(st, chunk)) == x + (p.bytes + chunk);
    } else {
      var body := Body(p.header, p.fetch, p.bytes + chunk[..p.remaining]);
      LogBytesNext(st.log, body);
      Assoc(x, p.bytes, chunk[..p.remaining]);
      var y, below := x + p.bytes, chunk[p.remaining..];
      assert LogBytes(st.log + [body]) == y + chunk[..p.remaining];
      hide LogBytes;
      assert Received(Absorbed(st, chunk)) == LogBytes(st.log + [body]) + [] + ([] + below);
      Cut3(y, chunk, p.remaining, p.remaining);
    }
  }

  lemma AbsorbedConserves(st: State, chunk: seq<Byte>, c: Config)
    requires Valid(st, c) && st.Open?
    ensures Received(Absorbed(st, chunk)) == Received(st) + chunk
  {
    if st.incoming.Some? {
      PayloadConserves(st, chunk, c);
    } else {
      Assoc(LogBytes(st.log) + [], st.buffer, chunk);
    }
  }

  lemma FeedConserves(st: State, chunk: seq<Byte>, c: Config)
    requires Valid(st, c) && st.Open?
    ensures var st' := Feed(st, chunk, c, true);
      if st'.Open? then Received(st') == Received(st) + chunk else Received(st') <= Received(st) + chunk
  {
    assert Overflows(st, chunk) ==> Received(Closed(st.log)) == LogBytes(st.log) <= Received(st);
    hide Received, Overflows, Absorbed, Drain;
    AbsorbedConserves(st, chunk, c);
    DrainConserves(Absorbed(st, chunk), c);
  }

  /** Over any chunks, as long as the connection is open: bytes received are frame bytes consumed,
    * payload bytes delivered or swallowed, the payload in progress and the bytes buffered, in order. */
  lemma {:induction false} NothingIsLost(st: State, chunks: seq<seq<Byte>>, c: Config)
    requires Valid(st, c) && FeedAll(st, chunks, c, true).Open?
    ensures Valid(FeedAll(st, chunks, c, true), c)
    ensures Received(FeedAll(st, chunks, c, true)) == Received(st) + Joined(chunks)
    decreases |chunks|
  {
    if chunks == [] {
      assert Received(st) + [] == Received(st);
    } else {
      var next := Feed(st, chunks[0], c, true);
      if next.Closed? {
        StaysClosed(next, chunks[1..], c);
      } else {
        FeedKeepsValid(st, chunks[0], c, true);
        FeedConserves(st, chunks[0], c);
        NothingIsLost(next, chunks[1..], c);
        Assoc(Received(st), chunks[0], Joined(chunks[1..]));
      }
    }
  }

  lemma {:induction false} StaysClosed(st: State, chunks: seq<seq<Byte>>, c: Config)
    requires st.Closed?
    ensures FeedAll(st, chunks, c, true) == st
    decreases |chunks|
  {
    if chunks != [] {
      StaysClosed(st, chunks[1..], c);
    }
  }
}
