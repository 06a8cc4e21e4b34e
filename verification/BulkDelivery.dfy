/** That replies reach the fetches that wait for them, and that only faults reset the stream. */
module BulkDelivery {
  import opened BulkFetches
  import opened BulkStream
  import opened Seqs
  import opened Wrappers

  // ----- The reply to a fetch

  predicate HeaderFor(e: Event, id: nat) {
    e.Handled? && e.message.ClipboardHeader? && e.message.header.requestId == id
  }

  /** The first header for `id` in the log from entry `from` on, or the log's length. */
  function FirstHeader(log: seq<Event>, id: nat, from: nat): (k: nat)
    requires from <= |log|
    ensures from <= k <= |log| && (k < |log| ==> HeaderFor(log[k], id)) && forall j | from <= j < k :: !HeaderFor(log[j], id)
    decreases |log| - from
  {
    if from == |log| || HeaderFor(log[from], id) then from else FirstHeader(log, id, from + 1)
  }

  lemma FirstHeaderIs(log: seq<Event>, id: nat, from: nat, k: nat)
    requires from <= k <= |log| && (k < |log| ==> HeaderFor(log[k], id)) && forall j | from <= j < k :: !HeaderFor(log[j], id)
    ensures FirstHeader(log, id, from) == k
  {
    hide HeaderFor;
  }

  lemma FirstHeaderNext(log: seq<Event>, e: Event, id: nat, from: nat)
    requires from <= |log|
    ensures FirstHeader(log + [e], id, from) ==
            var k := FirstHeader(log, id, from); if k < |log| then k else if HeaderFor(e, id) then |log| else |log| + 1
  {
    hide FirstHeader, HeaderFor;
    var k := FirstHeader(log, id, from);
    var k' := if k < |log| then k else if HeaderFor(e, id) then |log| else |log| + 1;
    FirstHeaderIs(log + [e], id, from, k');
  }

  /** Fetch `t`, made when the log had `from` entries, is pending until a header for its id; the payload
    * that follows that header, arriving or complete, is its result. */
  predicate Served(st: State, t: nat, id: nat, from: nat) {
    from <= |st.log| &&
    var k := FirstHeader(st.log, id, from);
    if k == |st.log| then st.Open? ==> id in st.pending && st.pending[id] == t
    else if k + 1 < |st.log| then
      st.log[k + 1].Body? && st.log[k + 1].header == st.log[k].message.header && st.log[k + 1].fetch == Some(t)
    else
      st.Open? ==> st.incoming.Some? && st.incoming.value.header == st.log[k].message.header && st.incoming.value.fetch == Some(t)
  }

  /** The same with nothing arriving and the last entry a header: its payload is still to be placed. */
  predicate AtHeader(log: seq<Event>, h: Header, pending: map<nat, nat>, t: nat, id: nat, from: nat) {
    from < |log| && log[|log| - 1].Handled? && log[|log| - 1].message == ClipboardHeader(h) &&
    var k := FirstHeader(log, id, from);
    if k + 1 < |log| then log[k + 1].Body? && log[k + 1].header == log[k].message.header && log[k + 1].fetch == Some(t)
    else id in pending && pending[id] == t
  }

  lemma PayloadIsServed(h: Header, rest: seq<Byte>, pending: map<nat, nat>, log: seq<Event>, c: Config, t: nat, id: nat, from: nat)
    requires AtHeader(log, h, pending, t, id, from)
    ensures Served(WithPayload(h, rest, pending, log, c), t, id, from)
  {
    hide FirstHeader;
    if h.length <= |rest| {
      FirstHeaderNext(log, Body(h, Fetched(pending, h.requestId), rest[..h.length]), id, from);
    }
  }

  lemma FrameIsServed(decoded: Option<Message>, raw: seq<Byte>, rest: seq<Byte>, pending: map<nat, nat>, log: seq<Event>,
                      c: Config, t: nat, id: nat, from: nat)
    requires Served(Open(rest, None, pending, log), t, id, from)
    ensures Served(AfterFrame(decoded, raw, rest, pending, log, c), t, id, from)
  {
    hide FirstHeader, WithPayload;
    if decoded.Some? {
      FirstHeaderNext(log, Handled(raw, decoded.value), id, from);
      if decoded.value.ClipboardHeader? {
        PayloadIsServed(decoded.value.header, rest, pending, log + [Handled(raw, decoded.value)], c, t, id, from);
      }
    }
  }

  lemma StepIsServed(st: State, c: Config, t: nat, id: nat, from: nat)
    requires Ready(st) && Served(st, t, id, from)
    ensures Served(Step(st, c), t, id, from)
  {
    hide FirstHeader, AfterFrame, FrameEnd;
    var z := FrameEnd(st.buffer);
    FrameIsServed(c.decode(st.buffer[..z]), st.buffer[..z + 1], st.buffer[z + 1..], st.pending, st.log, c, t, id, from);
  }

  lemma {:induction false} DrainIsServed(st: State, c: Config, t: nat, id: nat, from: nat)
    requires Served(st, t, id, from)
    ensures Served(Drain(st, c), t, id, from)
    decreases Size(st)
  {
    hide Served, Step;
    if Ready(st) {
      StepIsServed(st, c, t, id, from);
      DrainIsServed(Step(st, c), c, t, id, from);
    }
  }

  lemma AbsorbedIsServed(st: State, chunk: seq<Byte>, t: nat, id: nat, from: nat)
    requires Served(st, t, id, from)
    ensures Served(Absorbed(st, chunk), t, id, from)
  {
    hide FirstHeader;
    if st.Open? && st.incoming.Some? && st.incoming.value.remaining <= |chunk| {
      var p := st.incoming.value;
      FirstHeaderNext(st.log, Body(p.header, p.fetch, p.bytes + chunk[..p.remaining]), id, from);
    }
  }

  lemma CutIsServed(st: State, t: nat, id: nat, from: nat)
    requires Served(st, t, id, from)
    ensures Served(Closed(st.log), t, id, from)
  {
  }

  lemma FeedIsServed(st: State, chunk: seq<Byte>, c: Config, t: nat, id: nat, from: nat)
    requires Served(st, t, id, from)
    ensures Served(Feed(st, chunk, c, true), t, id, from)
  {
    hide Served, Absorbed, Overflows;
    CutIsServed(st, t, id, from);
    AbsorbedIsServed(st, chunk, t, id, from);
    DrainIsServed(Absorbed(st, chunk), c, t, id, from);
  }

  lemma OtherId(t: nat, u: nat)
    requires t < u < t + U64_RANGE
    ensures u % U64_RANGE != t % U64_RANGE
  {
  }

  lemma LaterFetchIsServed(cl: Client, closed: set<nat>, c: Config, t: nat, from: nat)
    requires Good(cl) && Served(cl.stream, t, t % U64_RANGE, from) && t < cl.issued < t + U64_RANGE && t !in closed
    ensures Served(Moved(cl, LocalFetch(closed), c).stream, t, t % U64_RANGE, from)
  {
    hide FirstHeader, Correlated;
    OtherId(t, cl.issued);
  }

  /** The requester of `t` waits. */
  predicate KeepsWaiting(ms: seq<Move>, t: nat) {
    forall i | 0 <= i < |ms| :: ms[i].LocalFetch? ==> t !in ms[i].closed
  }

  lemma IssuedGrows(cl: Client, m: Move, c: Config)
    ensures cl.issued <= Moved(cl, m, c).issued <= cl.issued + 1
  {
  }

  lemma {:induction false} IssuedGrowsAll(cl: Client, ms: seq<Move>, c: Config)
    ensures cl.issued <= MovedAll(cl, ms, c).issued
    decreases |ms|
  {
    hide Moved;
    if ms != [] {
      IssuedGrows(cl, ms[0], c);
      IssuedGrowsAll(Moved(cl, ms[0], c), ms[1..], c);
    }
  }

  lemma MoveIsServed(cl: Client, m: Move, c: Config, t: nat, from: nat)
    requires Good(cl) && Served(cl.stream, t, t % U64_RANGE, from) && t < cl.issued
    requires m.LocalFetch? ==> t !in m.closed && (cl.stream.Open? ==> cl.issued < t + U64_RANGE)
    ensures Served(Moved(cl, m, c).stream, t, t % U64_RANGE, from) && Good(Moved(cl, m, c))
  {
    hide Served, Correlated, Feed;
    match m
    case Chunk(bytes) =>
      FeedIsServed(cl.stream, bytes, c, t, t % U64_RANGE, from);
      FeedCorrelates(cl.stream, bytes, c, cl.issued);
    case LocalFetch(closed) =>
      FetchCorrelates(cl, closed, c);
      if cl.stream.Open? {
        LaterFetchIsServed(cl, closed, c, t, from);
      }
  }

  lemma {:induction false} RunIsServed(cl: Client, ms: seq<Move>, c: Config, t: nat, from: nat)
    requires Good(cl) && Served(cl.stream, t, t % U64_RANGE, from) && t < cl.issued && KeepsWaiting(ms, t)
    requires MovedAll(cl, ms, c).issued <= t + U64_RANGE
    ensures Served(MovedAll(cl, ms, c).stream, t, t % U64_RANGE, from)
    decreases |ms|
  {
    hide Good, Served;
    if ms != [] {
      var next := Moved(cl, ms[0], c);
      IssuedGrows(cl, ms[0], c);
      IssuedGrowsAll(next, ms[1..], c);
      MoveIsServed(cl, ms[0], c, t, from);
      hide Moved;
      RunIsServed(next, ms[1..], c, t, from);
    }
  }

  lemma FetchIsPending(cl: Client, closed: set<nat>, c: Config)
    requires Good(cl) && cl.stream.Open?
    ensures var next := Moved(cl, LocalFetch(closed), c);
      Good(next) && Served(next.stream, cl.issued, cl.issued % U64_RANGE, |cl.stream.log|) && next.issued == cl.issued + 1
  {
    FetchCorrelates(cl, closed, c);
    FirstHeaderIs(cl.stream.log, cl.issued % U64_RANGE, |cl.stream.log|, |cl.stream.log|);
    hide FirstHeader, Correlated, Retained;
  }

  /** From a fresh connection, over any interleaving: a fetch that is not given up, while fewer than 2^64
    * are made, gets the payload of the first header with its id, whole, once that has arrived. */
  lemma FetchGetsItsReply(before: seq<Move>, closed: set<nat>, after: seq<Move>, c: Config)
    requires MovedAll(FRESH, before, c).stream.Open?
    requires var cl := MovedAll(FRESH, before, c);
      && KeepsWaiting(after, cl.issued)
      && MovedAll(Moved(cl, LocalFetch(closed), c), after, c).issued <= cl.issued + U64_RANGE
    ensures var cl := MovedAll(FRESH, before, c);
      var t, from, log := cl.issued, |cl.stream.log|, MovedAll(Moved(cl, LocalFetch(closed), c), after, c).stream.log;
      && from <= |log|
      && var k := FirstHeader(log, t % U64_RANGE, from);
         k + 1 < |log| ==>
           var h := log[k].message.header;
           log[k + 1].Body? && log[k + 1] == Body(h, Some(t), log[k + 1].bytes) && |log[k + 1].bytes| == h.length
  {
    hide MovedAll, Moved, FirstHeader, LogParses, Good, Valid, Due;
    var cl := MovedAll(FRESH, before, c);
    var next := Moved(cl, LocalFetch(closed), c);
    StartsWhole(c);
    RunCorrelates(FRESH, before, c);
    RunParses(FRESH, before, c);
    FetchIsPending(cl, closed, c);
    FetchIsWhole(cl, closed, c);
    RunIsServed(next, after, c, cl.issued, |cl.stream.log|);
    RunParses(next, after, c);
    var log := MovedAll(next, after, c).stream.log;
    var k := FirstHeader(log, cl.issued % U64_RANGE, |cl.stream.log|);
    if k + 1 < |log| {
      ResultIsWhole(log, cl.issued, k + 1, c);
    }
  }

  lemma FetchIsWhole(cl: Client, closed: set<nat>, c: Config)
    requires WholeRun(cl, c)
    ensures WholeRun(Moved(cl, LocalFetch(closed), c), c)
  {
    hide LogParses, Due, FrameEnd, Retained;
  }

  // ----- A fetch given up

  /** Fetch `t` is neither pending nor being answered, and has the results it had. */
  predicate Forgotten(st: State, t: nat, from: nat) {
    && from <= |st.log|
    && (forall i | from <= i < |st.log| :: st.log[i].Body? ==> st.log[i].fetch != Some(t))
    && (st.Open? ==> (forall id | id in st.pending :: st.pending[id] != t)
                     && (st.incoming.Some? ==> st.incoming.value.fetch != Some(t)))
  }

  lemma StepForgets(st: State, c: Config, t: nat, from: nat)
    requires Ready(st) && Forgotten(st, t, from)
    ensures Forgotten(Step(st, c), t, from)
  {
    hide FrameEnd;
  }

  lemma {:induction false} DrainForgets(st: State, c: Config, t: nat, from: nat)
    requires Forgotten(st, t, from)
    ensures Forgotten(Drain(st, c), t, from)
    decreases Size(st)
  {
    hide Forgotten, Step;
    if Ready(st) {
      StepForgets(st, c, t, from);
      DrainForgets(Step(st, c), c, t, from);
    }
  }

  lemma MoveForgets(cl: Client, m: Move, c: Config, t: nat, from: nat)
    requires Forgotten(cl.stream, t, from) && t < cl.issued
    ensures Forgotten(Moved(cl, m, c).stream, t, from) && t < Moved(cl, m, c).issued
  {
    hide Drain;
    match m
    case Chunk(bytes) =>
      AbsorbedForgets(cl.stream, bytes, t, from);
      DrainForgets(Absorbed(cl.stream, bytes), c, t, from);
    case LocalFetch(closed) =>
  }

  lemma AbsorbedForgets(st: State, chunk: seq<Byte>, t: nat, from: nat)
    requires Forgotten(st, t, from)
    ensures Forgotten(Absorbed(st, chunk), t, from)
  {
  }

  lemma {:induction false} RunForgets(cl: Client, ms: seq<Move>, c: Config, t: nat, from: nat)
    requires Forgotten(cl.stream, t, from) && t < cl.issued
    ensures Forgotten(MovedAll(cl, ms, c).stream, t, from)
    decreases |ms|
  {
    hide Forgotten, Moved;
    if ms != [] {
      MoveForgets(cl, ms[0], c, t, from);
      RunForgets(Moved(cl, ms[0], c), ms[1..], c, t, from);
    }
  }

  /** A fetch given up before its header came gets no result, whatever the server sends. */
  lemma GivenUpGetsNothing(cl: Client, closed: set<nat>, after: seq<Move>, c: Config, t: nat, i: nat)
    requires cl.stream.Open? && t in closed && t < cl.issued
    requires cl.stream.incoming.Some? ==> cl.stream.incoming.value.fetch != Some(t)
    ensures var log := MovedAll(Moved(cl, LocalFetch(closed), c), after, c).stream.log;
      |cl.stream.log| <= i < |log| ==> !Results(log, t, i)
  {
    var next := Moved(cl, LocalFetch(closed), c);
    assert Forgotten(next.stream, t, |cl.stream.log|);
    hide Moved;
    RunForgets(next, after, c, t, |cl.stream.log|);
  }

  // ----- Only faults reset the stream

  /** What follows the parsed log cannot be handled: a payload larger than permitted, or a frame that
    * does not decode. */
  predicate Faulty(log: seq<Event>, rest: seq<Byte>, c: Config) {
    LogParses(log, c) &&
    match Due(log)
    case Some(h) => h.length > c.maxClipboardBytes
    case None => HasCompleteFrame(rest) && c.decode(rest[..FrameEnd(rest)]).None?
  }

  lemma {:induction false} HeaderFault(log: seq<Event>, h: Header, rest: seq<Byte>, pending: map<nat, nat>, c: Config)
    requires LogParses(log, c) && Due(log) == Some(h) && WithPayload(h, rest, pending, log, c).Closed?
    ensures WithPayload(h, rest, pending, log, c).log == log && Faulty(log, rest, c)
  {
  }

  lemma {:induction false} StepFault(st: State, c: Config) returns (rest: seq<Byte>)
    requires Ready(st) && Parses(st, c) && Step(st, c).Closed?
    ensures LogBytes(Step(st, c).log) + rest == LogBytes(st.log) + st.buffer && Faulty(Step(st, c).log, rest, c)
  {
    hide LogParses, Due, IsFrame, WithPayload, LogBytes;
    var z := FrameEnd(st.buffer);
    var decoded, raw := c.decode(st.buffer[..z]), st.buffer[..z + 1];
    if decoded.None? {
      rest := st.buffer;
    } else {
      rest := st.buffer[z + 1..];
      NextFrame(st.buffer, c);
      FrameParses(st.log, raw, decoded.value, c);
      var log := st.log + [Handled(raw, decoded.value)];
      LogBytesNext(st.log, Handled(raw, decoded.value));
      Cut3(LogBytes(st.log), st.buffer, z + 1, z + 1);
      HeaderFault(log, decoded.value.header, rest, st.pending, c);
    }
  }

  lemma {:induction false} DrainFault(st: State, c: Config) returns (rest: seq<Byte>)
    requires st.Open? && st.incoming.None? && Parses(st, c) && Drain(st, c).Closed?
    ensures LogBytes(Drain(st, c).log) + rest == LogBytes(st.log) + st.buffer && Faulty(Drain(st, c).log, rest, c)
    decreases Size(st)
  {
    hide Parses, Step, Faulty, LogBytes, HasCompleteFrame;
    var next := Step(st, c);
    DrainIsStep(st, c);
    if next.Closed? {
      rest := StepFault(st, c);
    } else {
      StepParses(st, c);
      StepConserves(st, c);
      NothingArriving(st);
      NothingArriving(next);
      rest := DrainFault(next, c);
    }
  }

  lemma NothingArriving(st: State)
    requires st.Open? && st.incoming.None?
    ensures Received(st) == LogBytes(st.log) + st.buffer
  {
    hide LogBytes;
    assert LogBytes(st.log) + [] == LogBytes(st.log);
  }

  /** The bytes of a live stream beyond its log. */
  function Beyond(st: State): seq<Byte>
    requires st.Open?
  {
    (if st.incoming.Some? then st.incoming.value.bytes else []) + st.buffer
  }

  lemma {:induction false} NoFaultWhereParsed(log: seq<Event>, rest: seq<Byte>, st: State, c: Config)
    requires Faulty(log, rest, c) && st.Open? && Parses(st, c) && Valid(st, c)
    ensures LogBytes(log) + rest != LogBytes(st.log) + Beyond(st)
  {
    if LogBytes(log) + rest == LogBytes(st.log) + Beyond(st) {
      hide LogParses, IsFrame, LogBytes, AlikeLogs, Due, FrameEnd;
      var n := if |log| <= |st.log| then |log| else |st.log|;
      AgreeUpTo(log, rest, st.log, Beyond(st), n, c);
      AlikeDue(log[..n], st.log[..n]);
      AlikeBytes(log[..n], st.log[..n]);
      assert log[..|log|] == log && st.log[..|st.log|] == st.log;
      if |log| < |st.log| {
        ParsedPastFault(log, rest, st.log, Beyond(st), c);
      } else if |log| == |st.log| {
        FaultInTheTail(log, rest, st, c);
      } else {
        FaultPastTail(log, rest, st, c);
      }
    }
  }

  lemma FrameDecodes(raw: seq<Byte>, m: Message, more: seq<Byte>, c: Config)
    requires IsFrame(raw, m, c)
    ensures HasCompleteFrame(raw + more) && c.decode((raw + more)[..FrameEnd(raw + more)]) == Some(m)
  {
    FrameEndBelow(raw, more);
    hide FrameEnd;
    assert (raw + more)[..|raw| - 1] == raw[..|raw| - 1];
  }

  /** The entry that follows a parsed log is no fault there. */
  lemma {:induction false} ParsedPastFault(log: seq<Event>, rest: seq<Byte>, longer: seq<Event>, tail: seq<Byte>, c: Config)
    requires Faulty(log, rest, c) && LogParses(longer, c) && |log| < |longer|
    requires Due(log) == Due(longer[..|log|]) && LogBytes(log) == LogBytes(longer[..|log|])
    ensures LogBytes(log) + rest != LogBytes(longer) + tail
  {
    hide LogParses, LogBytes;
    PrefixParses(longer, |log|, c);
    PermittedLength(longer, |log|, c);
    var e := longer[|log|];
    var below := BytesSplit(longer, |log|);
    if LogBytes(log) + rest == LogBytes(longer) + tail {
      Assoc(LogBytes(log) + BytesOf(e), below, tail);
      Assoc(LogBytes(log), BytesOf(e), below + tail);
      CancelFront(LogBytes(log), rest, BytesOf(e) + (below + tail));
      if e.Handled? {
        FrameDecodes(e.raw, e.message, below + tail, c);
      }
    }
  }

  lemma {:induction false} PermittedLength(log: seq<Event>, k: nat, c: Config)
    requires LogParses(log, c) && k < |log|
    ensures log[k].Body? ==> |log[k].bytes| <= c.maxClipboardBytes
    decreases |log|
  {
    hide IsFrame, Due;
    if k < |log| - 1 {
      PermittedLength(log[..|log| - 1], k, c);
    }
  }

  lemma CancelFront(p: seq<Byte>, x: seq<Byte>, y: seq<Byte>)
    requires p + x == p + y
    ensures x == y
  {
    assert x == (p + x)[|p|..] && y == (p + y)[|p|..];
  }

  lemma {:induction false} FaultInTheTail(log: seq<Event>, rest: seq<Byte>, st: State, c: Config)
    requires Faulty(log, rest, c) && st.Open? && Parses(st, c) && Valid(st, c)
    requires Due(log) == Due(st.log) && LogBytes(log) == LogBytes(st.log)
    ensures LogBytes(log) + rest != LogBytes(st.log) + Beyond(st)
  {
    hide LogParses, LogBytes, Due, FrameEnd;
    assert st.incoming.None? ==> Beyond(st) == st.buffer;
    if LogBytes(log) + rest == LogBytes(st.log) + Beyond(st) {
      CancelFront(LogBytes(log), rest, Beyond(st));
    }
  }

  lemma {:induction false} FaultPastTail(log: seq<Event>, rest: seq<Byte>, st: State, c: Config)
    requires LogParses(log, c) && st.Open? && Parses(st, c) && Valid(st, c) && |st.log| < |log|
    requires Due(log[..|st.log|]) == Due(st.log) && LogBytes(log[..|st.log|]) == LogBytes(st.log)
    ensures LogBytes(log) + rest != LogBytes(st.log) + Beyond(st)
  {
    hide LogParses, LogBytes, Due;
    PrefixParses(log, |st.log|, c);
    var e := log[|st.log|];
    var below := BytesSplit(log, |st.log|);
    if LogBytes(log) + rest == LogBytes(st.log) + Beyond(st) {
      Assoc(LogBytes(st.log) + BytesOf(e), below, rest);
      Assoc(LogBytes(st.log), BytesOf(e), below + rest);
      CancelFront(LogBytes(st.log), BytesOf(e) + (below + rest), Beyond(st));
      if e.Handled? {
        FrameDecodes(e.raw, e.message, below + rest, c);
      }
    }
  }

  /** From a fresh connection the stream is reset if and only if its bytes, however they are cut, lead to
    * a payload larger than permitted or to a frame that does not decode. */
  lemma ResetOnlyOnFaults(bytes: seq<Byte>, pending: map<nat, nat>, c: Config)
    ensures Feed(Open([], None, pending, []), bytes, c, false).Closed?
            <==> exists log, rest :: LogBytes(log) + rest == bytes && Faulty(log, rest, c)
  {
    hide Drain, LogParses, Due, LogBytes, FrameEnd, Parses, Valid, Faulty;
    var st := Open([] + bytes, None, pending, []);
    StartsParsed(bytes, pending, c);
    if Drain(st, c).Closed? {
      var rest := DrainFault(st, c);
      assert LogBytes(Drain(st, c).log) + rest == bytes;
    } else {
      DrainParses(st, c);
      DrainKeepsValid(st, c);
      DrainConserves(st, c);
      BeyondIs(Drain(st, c));
      NothingArriving(st);
      forall log, rest | Faulty(log, rest, c) ensures LogBytes(log) + rest != bytes {
        NoFaultWhereParsed(log, rest, Drain(st, c), c);
      }
    }
  }

  /** And one chunk on a fresh connection resets it for no other reason than these and its size. */
  lemma ResetExactly(bytes: seq<Byte>, pending: map<nat, nat>, c: Config)
    ensures Feed(Open([], None, pending, []), bytes, c, true).Closed?
            <==> |bytes| > 1024 * 1024 || exists log, rest :: LogBytes(log) + rest == bytes && Faulty(log, rest, c)
  {
    hide Drain, LogParses, Due, LogBytes, FrameEnd, Faulty;
    ResetOnlyOnFaults(bytes, pending, c);
    assert [] + bytes == bytes;
  }

  lemma StartsParsed(bytes: seq<Byte>, pending: map<nat, nat>, c: Config)
    ensures Parses(Open([] + bytes, None, pending, []), c) && LogBytes([]) + ([] + bytes) == bytes
  {
  }

  lemma BeyondIs(st: State)
    requires st.Open?
    ensures Received(st) == LogBytes(st.log) + Beyond(st)
  {
    hide LogBytes;
    Assoc(LogBytes(st.log), if st.incoming.Some? then st.incoming.value.bytes else [], st.buffer);
  }
}
