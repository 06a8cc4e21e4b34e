/** Replies on the bulk stream and the fetches they answer. */
module BulkFetches {
  import opened BulkStream
  import opened Seqs
  import opened Wrappers

  // ----- What a log stands for

  predicate IsFrame(raw: seq<Byte>, m: Message, c: Config) {
    raw != [] && FrameEnd(raw) == |raw| - 1 && c.decode(raw[..|raw| - 1]) == Some(m)
  }

  /** The header the log ends in: its payload comes next. */
  function Due(log: seq<Event>): Option<Header> {
    if log != [] && log[|log| - 1].Handled? && log[|log| - 1].message.ClipboardHeader?
    then Some(log[|log| - 1].message.header) else None
  }

  /** Every frame in the log decodes to its message, and every header is followed by a payload, and
    * every payload preceded by a header, of the declared length. */
  predicate LogParses(log: seq<Event>, c: Config) {
    log == [] ||
      var above, last := log[..|log| - 1], log[|log| - 1];
      LogParses(above, c) &&
        match last
        case Handled(raw, m) => IsFrame(raw, m, c) && Due(above).None?
        case Body(h, _, bytes) => Due(above) == Some(h) && |bytes| == h.length <= c.maxClipboardBytes
  }

  predicate Parses(st: State, c: Config) {
    && LogParses(st.log, c)
    && (st.Open? ==> Due(st.log) == if st.incoming.Some? then Some(st.incoming.value.header) else None)
  }

  lemma FrameOf(b: seq<Byte>)
    requires HasCompleteFrame(b)
    ensures FrameEnd(b[..FrameEnd(b) + 1]) == FrameEnd(b)
    ensures b[..FrameEnd(b) + 1][..FrameEnd(b)] == b[..FrameEnd(b)]
  {
    var z := FrameEnd(b);
    var raw := b[..z + 1];
    assert forall i | 0 <= i <= z :: raw[i] == b[i];
  }

  lemma {:induction false} FrameParses(log: seq<Event>, raw: seq<Byte>, m: Message, c: Config)
    requires LogParses(log, c) && Due(log).None? && IsFrame(raw, m, c)
    ensures var log' := log + [Handled(raw, m)];
      LogParses(log', c) && Due(log') == if m.ClipboardHeader? then Some(m.header) else None
  {
    assert (log + [Handled(raw, m)])[..|log|] == log;
  }

  lemma {:induction false} BodyParses(log: seq<Event>, h: Header, fetch: Option<nat>, bytes: seq<Byte>, c: Config)
    requires LogParses(log, c) && Due(log) == Some(h) && |bytes| == h.length <= c.maxClipboardBytes
    ensures var log' := log + [Body(h, fetch, bytes)]; LogParses(log', c) && Due(log') == None
  {
    assert (log + [Body(h, fetch, bytes)])[..|log|] == log;
  }

  lemma NextFrame(b: seq<Byte>, c: Config)
    requires HasCompleteFrame(b) && c.decode(b[..FrameEnd(b)]).Some?
    ensures IsFrame(b[..FrameEnd(b) + 1], c.decode(b[..FrameEnd(b)]).value, c)
  {
    FrameOf(b);
  }

  lemma {:induction false} HeaderParses(log: seq<Event>, h: Header, rest: seq<Byte>, pending: map<nat, nat>, c: Config)
    requires LogParses(log, c) && Due(log) == Some(h)
    ensures Parses(WithPayload(h, rest, pending, log, c), c)
  {
    hide LogParses, Due;
    if h.length <= c.maxClipboardBytes && h.length <= |rest| {
      BodyParses(log, h, Fetched(pending, h.requestId), rest[..h.length], c);
    }
  }

  lemma {:induction false} StepParses(st: State, c: Config)
    requires Ready(st) && Parses(st, c)
    ensures Parses(Step(st, c), c)
  {
    hide IsFrame, FrameEnd, LogParses, Due, WithPayload;
    var z := FrameEnd(st.buffer);
    var decoded, raw := c.decode(st.buffer[..z]), st.buffer[..z + 1];
    if decoded.Some? {
      NextFrame(st.buffer, c);
      FrameParses(st.log, raw, decoded.value, c);
      if decoded.value.ClipboardHeader? {
        HeaderParses(st.log + [Handled(raw, decoded.value)], decoded.value.header, st.buffer[z + 1..], st.pending, c);
      }
    }
  }

  lemma {:induction false} DrainParses(st: State, c: Config)
    requires Parses(st, c)
    ensures Parses(Drain(st, c), c)
    decreases Size(st)
  {
    hide Parses, Step;
    if Ready(st) {
      StepParses(st, c);
      DrainParses(Step(st, c), c);
    }
  }

  /** What the log says stays true chunk after chunk. */
  lemma {:induction false} FeedParses(st: State, chunk: seq<Byte>, c: Config)
    requires Parses(st, c) && Valid(st, c)
    ensures Parses(Feed(st, chunk, c, true), c)
  {
    hide IsFrame, LogParses, Due;
    if st.Open? && st.incoming.Some? && st.incoming.value.remaining <= |chunk| {
      var p := st.incoming.value;
      BodyParses(st.log, p.header, p.fetch, p.bytes + chunk[..p.remaining], c);
    }
    DrainParses(Absorbed(st, chunk), c);
  }

  // ----- The bytes determine the parse

  lemma {:induction false} PrefixParses(log: seq<Event>, k: nat, c: Config)
    requires LogParses(log, c) && k <= |log|
    ensures LogParses(log[..k], c)
    ensures k < |log| ==> match log[k]
      case Handled(raw, m) => IsFrame(raw, m, c) && Due(log[..k]).None?
      case Body(h, _, bytes) => Due(log[..k]) == Some(h) && |bytes| == h.length
  {
    hide IsFrame;
    if k < |log| {
      var above := log[..|log| - 1];
      assert above[..k] == log[..k];
      if k < |above| {
        PrefixParses(above, k, c);
      }
    } else {
      assert log[..k] == log;
    }
  }

  lemma {:induction false} BytesSplit(log: seq<Event>, k: nat) returns (rest: seq<Byte>)
    requires k < |log|
    ensures LogBytes(log) == LogBytes(log[..k]) + BytesOf(log[k]) + rest
  {
    var above := log[..|log| - 1];
    assert above[..k] == log[..k];
    if k == |log| - 1 {
      rest := [];
      assert LogBytes(log) + [] == LogBytes(log);
    } else {
      rest := BytesSplit(above, k);
      Assoc(LogBytes(log[..k]) + BytesOf(log[k]), rest, BytesOf(log[|log| - 1]));
      rest := rest + BytesOf(log[|log| - 1]);
    }
  }

  /** Two ways on from the same place with the same bytes ahead go on alike. */
  lemma SameEntry(due: Option<Header>, a: Event, b: Event, x: seq<Byte>, y: seq<Byte>, c: Config)
    requires BytesOf(a) + x == BytesOf(b) + y
    requires match a case Handled(raw, m) => IsFrame(raw, m, c) && due.None? case Body(h, _, bytes) => due == Some(h) && |bytes| == h.length
    requires match b case Handled(raw, m) => IsFrame(raw, m, c) && due.None? case Body(h, _, bytes) => due == Some(h) && |bytes| == h.length
    ensures WithoutFetch(a) == WithoutFetch(b)
  {
    if due.None? {
      FrameEndBelow(a.raw, x);
      FrameEndBelow(b.raw, y);
      hide FrameEnd;
      assert a.raw == (a.raw + x)[..|a.raw|] && b.raw == (b.raw + y)[..|b.raw|];
    } else {
      assert a.bytes == (a.bytes + x)[..|a.bytes|] && b.bytes == (b.bytes + y)[..|b.bytes|];
    }
  }

  /** Two logs of bytes that go on alike agree as far as both go. */
  lemma {:induction false} AgreeUpTo(a: seq<Event>, x: seq<Byte>, b: seq<Event>, y: seq<Byte>, k: nat, c: Config)
    requires LogParses(a, c) && LogParses(b, c) && LogBytes(a) + x == LogBytes(b) + y && k <= |a| && k <= |b|
    ensures AlikeLogs(a[..k], b[..k])
  {
    hide LogParses, IsFrame, LogBytes, AlikeLogs;
    if k > 0 {
      AgreeUpTo(a, x, b, y, k - 1, c);
      EntryAgrees(a, x, b, y, k - 1, c);
      AlikeNext(a, b, k - 1);
    } else {
      NothingAgrees(a, b);
    }
  }

  lemma NothingAgrees(a: seq<Event>, b: seq<Event>)
    ensures AlikeLogs(a[..0], b[..0])
  {
  }

  lemma AlikeNext(a: seq<Event>, b: seq<Event>, k: nat)
    requires k < |a| && k < |b| && AlikeLogs(a[..k], b[..k]) && WithoutFetch(a[k]) == WithoutFetch(b[k])
    ensures AlikeLogs(a[..k + 1], b[..k + 1])
  {
    hide WithoutFetch;
    forall i | 0 <= i < k ensures WithoutFetch(a[i]) == WithoutFetch(b[i]) {
      assert a[i] == a[..k][i] && b[i] == b[..k][i];
    }
  }

  lemma {:induction false} EntryAgrees(a: seq<Event>, x: seq<Byte>, b: seq<Event>, y: seq<Byte>, k: nat, c: Config)
    requires LogParses(a, c) && LogParses(b, c) && LogBytes(a) + x == LogBytes(b) + y && k < |a| && k < |b|
    requires AlikeLogs(a[..k], b[..k])
    ensures WithoutFetch(a[k]) == WithoutFetch(b[k])
  {
    hide LogParses, IsFrame, LogBytes, AlikeLogs, BytesOf, WithoutFetch, Due;
    AlikeBytes(a[..k], b[..k]);
    var v := BytesSplit(a, k);
    var w := BytesSplit(b, k);
    PrefixParses(a, k, c);
    PrefixParses(b, k, c);
    AlikeDue(a[..k], b[..k]);
    Assoc(LogBytes(a[..k]) + BytesOf(a[k]), v, x);
    Assoc(LogBytes(b[..k]) + BytesOf(b[k]), w, y);
    Cancel(LogBytes(a[..k]), BytesOf(a[k]), v + x, BytesOf(b[k]), w + y);
    SameEntry(Due(a[..k]), a[k], b[k], v + x, w + y, c);
  }

  lemma Cancel(p: seq<Byte>, a: seq<Byte>, x: seq<Byte>, b: seq<Byte>, y: seq<Byte>)
    requires p + a + x == p + b + y
    ensures a + x == b + y
  {
    assert a + x == (p + a + x)[|p|..] && b + y == (p + b + y)[|p|..];
  }

  lemma {:induction false} AlikeBytes(a: seq<Event>, b: seq<Event>)
    requires AlikeLogs(a, b)
    ensures LogBytes(a) == LogBytes(b)
  {
    if a != [] {
      AlikeBytes(a[..|a| - 1], b[..|b| - 1]);
      assert WithoutFetch(a[|a| - 1]) == WithoutFetch(b[|b| - 1]);
    }
  }

  lemma AlikeDue(a: seq<Event>, b: seq<Event>)
    requires AlikeLogs(a, b)
    ensures Due(a) == Due(b)
  {
    if a != [] {
      assert WithoutFetch(a[|a| - 1]) == WithoutFetch(b[|b| - 1]);
    }
  }

  /** A stream has one parse: two logs of the same bytes, neither waiting for a payload, record the
    * same messages and payloads, whichever fetches these answered. */
  lemma {:induction false} OneParse(a: seq<Event>, b: seq<Event>, c: Config)
    requires LogParses(a, c) && LogParses(b, c) && LogBytes(a) == LogBytes(b) && Due(a).None? && Due(b).None?
    ensures AlikeLogs(a, b)
  {
    if |a| <= |b| {
      NoLonger(a, b, c);
      AgreeUpTo(a, [], b, [], |a|, c);
      assert a[..|a|] == a && b[..|a|] == b;
    } else {
      NoLonger(b, a, c);
    }
  }

  /** A frame that no payload preempts takes at least its terminator. */
  lemma FrameTakesBytes(log: seq<Event>, k: nat, c: Config)
    requires LogParses(log, c) && k < |log| && Due(log[..k]).None?
    ensures |LogBytes(log)| > |LogBytes(log[..k])|
  {
    hide LogParses, LogBytes;
    PrefixParses(log, k, c);
    var rest := BytesSplit(log, k);
    assert |LogBytes(log)| == |LogBytes(log[..k])| + |BytesOf(log[k])| + |rest|;
  }

  lemma {:induction false} NoLonger(a: seq<Event>, b: seq<Event>, c: Config)
    requires LogParses(a, c) && LogParses(b, c) && LogBytes(a) == LogBytes(b) && Due(a).None? && |a| <= |b|
    ensures |a| == |b|
  {
    hide *;
    AgreeUpTo(a, [], b, [], |a|, c);
    assert a[..|a|] == a;
    AlikeBytes(a, b[..|a|]);
    AlikeDue(a, b[..|a|]);
    if |a| < |b| {
      FrameTakesBytes(b, |a|, c);
    }
  }

  // ----- The messages do not depend on which fetches are pending

  function WithoutFetch(e: Event): Event {
    if e.Body? then e.(fetch := None) else e
  }

  ghost predicate AlikeLogs(a: seq<Event>, b: seq<Event>) {
    |a| == |b| && forall i | 0 <= i < |a| :: WithoutFetch(a[i]) == WithoutFetch(b[i])
  }

  predicate AlikePayloads(a: Option<Payload>, b: Option<Payload>) {
    match (a, b)
    case (Some(p), Some(q)) => p.(fetch := None) == q.(fetch := None)
    case (None, None) => true
    case _ => false
  }

  /** The same but for the fetches that payloads answer. */
  ghost predicate Alike(a: State, b: State) {
    AlikeLogs(a.log, b.log) &&
    match (a, b)
    case (Open(x, p, _, _), Open(y, q, _, _)) => x == y && AlikePayloads(p, q)
    case (Closed(_), Closed(_)) => true
    case _ => false
  }

  lemma WithPayloadAlike(h: Header, rest: seq<Byte>, p: map<nat, nat>, q: map<nat, nat>, a: seq<Event>, b: seq<Event>, c: Config)
    requires AlikeLogs(a, b)
    ensures Alike(WithPayload(h, rest, p, a, c), WithPayload(h, rest, q, b, c))
  {
  }

  lemma StepAlike(a: State, b: State, c: Config)
    requires Alike(a, b) && Ready(a)
    ensures Ready(b) && Alike(Step(a, c), Step(b, c))
  {
    var z := FrameEnd(a.buffer);
    var decoded, raw, rest := c.decode(a.buffer[..z]), a.buffer[..z + 1], a.buffer[z + 1..];
    hide FrameEnd, WithPayload;
    if decoded.Some? && decoded.value.ClipboardHeader? {
      WithPayloadAlike(decoded.value.header, rest, a.pending, b.pending,
                       a.log + [Handled(raw, decoded.value)], b.log + [Handled(raw, decoded.value)], c);
    }
  }

  lemma {:induction false} DrainAlike(a: State, b: State, c: Config)
    requires Alike(a, b)
    ensures Alike(Drain(a, c), Drain(b, c))
    decreases Size(a)
  {
    assert Ready(a) <==> Ready(b);
    if Ready(a) {
      StepAlike(a, b, c);
      hide Alike, Step, Ready;
      DrainAlike(Step(a, c), Step(b, c), c);
    }
  }

  lemma FeedAlike(a: State, b: State, chunk: seq<Byte>, c: Config)
    requires Alike(a, b)
    ensures Alike(Feed(a, chunk, c, true), Feed(b, chunk, c, true))
  {
    assert Alike(Absorbed(a, chunk), Absorbed(b, chunk));
    assert Overflows(a, chunk) <==> Overflows(b, chunk);
    assert Alike(Closed(a.log), Closed(b.log));
    hide Alike, Absorbed, Overflows;
    DrainAlike(Absorbed(a, chunk), Absorbed(b, chunk), c);
  }

  /** A payload for an unknown or expired fetch is swallowed without disturbing what follows: with
    * any two sets of pending fetches a stream is parsed into the same messages and payloads. */
  lemma {:induction false} PendingDoesNotMatter(a: State, b: State, chunks: seq<seq<Byte>>, c: Config)
    requires Alike(a, b)
    ensures Alike(FeedAll(a, chunks, c, true), FeedAll(b, chunks, c, true))
    decreases |chunks|
  {
    hide Alike, Feed;
    if chunks != [] {
      FeedAlike(a, b, chunks[0], c);
      PendingDoesNotMatter(Feed(a, chunks[0], c, true), Feed(b, chunks[0], c, true), chunks[1..], c);
    }
  }

  // ----- Fetches and results over whole runs

  const U64_RANGE: nat := 0x1_0000_0000_0000_0000

  /** `issued` counts the fetches made; the k-th fetch is the token k. */
  datatype Client = Client(stream: State, nextId: nat, issued: nat)

  /** A local paste asks for content, the requesters of the `closed` fetches having given up; or a
    * chunk arrives from the server. */
  datatype Move = LocalFetch(closed: set<nat>) | Chunk(bytes: seq<Byte>)

  function Retained(pending: map<nat, nat>, closed: set<nat>): map<nat, nat> {
    map id | id in pending && pending[id] !in closed :: pending[id]
  }

  function Moved(cl: Client, m: Move, c: Config): Client {
    match m
    case Chunk(bytes) => cl.(stream := Feed(cl.stream, bytes, c, true))
    case LocalFetch(closed) =>
      if cl.stream.Closed? then cl
      else
        var st := cl.stream;
        Client(st.(pending := Retained(st.pending, closed)[cl.nextId := cl.issued]),
               (cl.nextId + 1) % U64_RANGE, cl.issued + 1)
  }

  function MovedAll(cl: Client, ms: seq<Move>, c: Config): Client
    decreases |ms|
  {
    if ms == [] then cl else MovedAll(Moved(cl, ms[0], c), ms[1..], c)
  }

  function TokenOf(fetch: Option<nat>): seq<nat> {
    if fetch.Some? then [fetch.value] else []
  }

  /** The fetches that got a result, in order. */
  function Answered(log: seq<Event>): seq<nat> {
    if log == [] then []
    else Answered(log[..|log| - 1]) + (if log[|log| - 1].Body? then TokenOf(log[|log| - 1].fetch) else [])
  }

  /** Also counting the one whose payload is arriving. */
  function Settled(st: State): seq<nat> {
    Answered(st.log) + if st.Open? && st.incoming.Some? then TokenOf(st.incoming.value.fetch) else []
  }

  predicate Distinct(s: seq<nat>) {
    forall i, j | 0 <= i < j < |s| :: s[i] != s[j]
  }

  predicate OwnId(fetch: Option<nat>, h: Header) {
    fetch.Some? ==> fetch.value % U64_RANGE == h.requestId
  }

  predicate OwnIds(st: State) {
    && (forall i | 0 <= i < |st.log| :: st.log[i].Body? ==> OwnId(st.log[i].fetch, st.log[i].header))
    && (st.Open? && st.incoming.Some? ==> OwnId(st.incoming.value.fetch, st.incoming.value.header))
  }

  predicate Below(s: seq<nat>, n: nat) {
    forall i | 0 <= i < |s| :: s[i] < n
  }

  predicate Free(t: nat, s: seq<nat>) {
    forall i | 0 <= i < |s| :: s[i] != t
  }

  predicate PendingOk(pending: map<nat, nat>, settled: seq<nat>, issued: nat) {
    forall id | id in pending :: pending[id] < issued && pending[id] % U64_RANGE == id && Free(pending[id], settled)
  }

  /** No fetch is settled twice, none that is settled is pending, and each was matched by its id. */
  predicate Correlated(st: State, issued: nat) {
    && Distinct(Settled(st)) && Below(Settled(st), issued) && OwnIds(st)
    && (st.Open? ==> PendingOk(st.pending, Settled(st), issued))
  }

  lemma AnsweredNext(log: seq<Event>, e: Event)
    ensures Answered(log + [e]) == Answered(log) + if e.Body? then TokenOf(e.fetch) else []
  {
    assert (log + [e])[..|log|] == log;
  }

  lemma WithPayloadSettles(h: Header, rest: seq<Byte>, pending: map<nat, nat>, log: seq<Event>, c: Config)
    ensures var next, fetch := WithPayload(h, rest, pending, log, c), Fetched(pending, h.requestId);
      next.Open? ==> Settled(next) == Answered(log) + TokenOf(fetch) && next.pending == pending - {h.requestId}
    ensures WithPayload(h, rest, pending, log, c).Closed? ==> WithPayload(h, rest, pending, log, c).log == log
  {
    hide Answered, Fetched, TokenOf;
    AnsweredNext(log, Body(h, Fetched(pending, h.requestId), if h.length <= |rest| then rest[..h.length] else []));
  }

  /** Taking the fetch with the header's id out of the pending ones settles it, once. */
  lemma TakingSettles(pending: map<nat, nat>, settled: seq<nat>, issued: nat, id: nat)
    requires Distinct(settled) && Below(settled, issued) && PendingOk(pending, settled, issued)
    ensures var s := settled + TokenOf(Fetched(pending, id));
      Distinct(s) && Below(s, issued) && PendingOk(pending - {id}, s, issued)
  {
    if id in pending {
      var t, s := pending[id], settled + [pending[id]];
      forall k | k in pending && k != id ensures Free(pending[k], s) {
        assert pending[k] != t;
        assert Free(pending[k], settled);
      }
    } else {
      assert settled + [] == settled;
    }
  }

  predicate LogIds(log: seq<Event>) {
    forall i | 0 <= i < |log| :: log[i].Body? ==> OwnId(log[i].fetch, log[i].header)
  }

  /** The correlation of a connection on which no payload is in progress. */
  predicate IdleOk(log: seq<Event>, pending: map<nat, nat>, issued: nat) {
    Distinct(Answered(log)) && Below(Answered(log), issued) && LogIds(log) && PendingOk(pending, Answered(log), issued)
  }

  lemma IdleIsCorrelated(st: State, issued: nat)
    requires st.Open? && st.incoming.None?
    ensures Correlated(st, issued) <==> IdleOk(st.log, st.pending, issued)
  {
    hide Answered, Distinct, Below, PendingOk;
    assert Answered(st.log) + [] == Answered(st.log);
  }

  lemma ClosedIsCorrelated(log: seq<Event>, pending: map<nat, nat>, issued: nat)
    requires IdleOk(log, pending, issued)
    ensures Correlated(Closed(log), issued)
  {
    hide Answered, Distinct, Below, PendingOk;
    assert Answered(log) + [] == Answered(log);
  }

  lemma WithPayloadCorrelates(h: Header, rest: seq<Byte>, pending: map<nat, nat>, log: seq<Event>, c: Config, issued: nat)
    requires IdleOk(log, pending, issued)
    ensures Correlated(WithPayload(h, rest, pending, log, c), issued)
  {
    assert OwnId(Fetched(pending, h.requestId), h);
    WithPayloadSettles(h, rest, pending, log, c);
    TakingSettles(pending, Answered(log), issued, h.requestId);
    ClosedIsCorrelated(log, pending, issued);
    hide Settled, Answered, Distinct, Below, PendingOk, OwnId, Fetched;
  }

  lemma HandledIsIdle(log: seq<Event>, raw: seq<Byte>, m: Message, pending: map<nat, nat>, issued: nat)
    requires IdleOk(log, pending, issued)
    ensures IdleOk(log + [Handled(raw, m)], pending, issued)
  {
    AnsweredNext(log, Handled(raw, m));
    hide Answered, Distinct, Below, PendingOk, OwnId;
    assert Answered(log) + [] == Answered(log);
  }

  lemma AfterFrameCorrelates(decoded: Option<Message>, raw: seq<Byte>, rest: seq<Byte>,
                             pending: map<nat, nat>, log: seq<Event>, c: Config, issued: nat)
    requires IdleOk(log, pending, issued)
    ensures Correlated(AfterFrame(decoded, raw, rest, pending, log, c), issued)
  {
    hide Correlated, IdleOk, WithPayload;
    if decoded.Some? {
      HandledIsIdle(log, raw, decoded.value, pending, issued);
      if decoded.value.ClipboardHeader? {
        WithPayloadCorrelates(decoded.value.header, rest, pending, log + [Handled(raw, decoded.value)], c, issued);
      } else {
        IdleIsCorrelated(Open(rest, None, pending, log + [Handled(raw, decoded.value)]), issued);
      }
    } else {
      ClosedIsCorrelated(log, pending, issued);
    }
  }

  lemma StepCorrelates(st: State, c: Config, issued: nat)
    requires Ready(st) && Correlated(st, issued)
    ensures Correlated(Step(st, c), issued)
  {
    IdleIsCorrelated(st, issued);
    var z := FrameEnd(st.buffer);
    var decoded, raw, rest := c.decode(st.buffer[..z]), st.buffer[..z + 1], st.buffer[z + 1..];
    assert Step(st, c) == AfterFrame(decoded, raw, rest, st.pending, st.log, c);
    hide *;
    AfterFrameCorrelates(decoded, raw, rest, st.pending, st.log, c, issued);
  }

  lemma {:induction false} DrainCorrelates(st: State, c: Config, issued: nat)
    requires Correlated(st, issued)
    ensures Correlated(Drain(st, c), issued)
    decreases Size(st)
  {
    hide Correlated, Step;
    if Ready(st) {
      StepCorrelates(st, c, issued);
      DrainCorrelates(Step(st, c), c, issued);
    }
  }

  lemma BodySettles(log: seq<Event>, body: Event, pending: map<nat, nat>, issued: nat)
    requires body.Body? && OwnId(body.fetch, body.header) && LogIds(log)
    requires var s := Answered(log) + TokenOf(body.fetch); Distinct(s) && Below(s, issued) && PendingOk(pending, s, issued)
    ensures IdleOk(log + [body], pending, issued)
  {
    AnsweredNext(log, body);
    hide Answered, Distinct, Below, PendingOk, OwnId, TokenOf;
  }

  lemma AbsorbedCorrelates(st: State, chunk: seq<Byte>, issued: nat)
    requires Correlated(st, issued)
    ensures Correlated(Absorbed(st, chunk), issued)
  {
    hide Answered, Distinct, Below, PendingOk, OwnId, TokenOf;
    if st.Open? && st.incoming.Some? && st.incoming.value.remaining <= |chunk| {
      var p := st.incoming.value;
      BodySettles(st.log, Body(p.header, p.fetch, p.bytes + chunk[..p.remaining]), st.pending, issued);
      hide Correlated, IdleOk;
      IdleIsCorrelated(Absorbed(st, chunk), issued);
    }
  }

  lemma CutCorrelates(st: State, issued: nat)
    requires Correlated(st, issued)
    ensures Correlated(Closed(st.log), issued)
  {
    hide Answered, OwnId;
    assert Answered(st.log) + [] == Answered(st.log);
    assert forall i | 0 <= i < |Answered(st.log)| :: Settled(st)[i] == Answered(st.log)[i];
  }

  lemma FeedCorrelates(st: State, chunk: seq<Byte>, c: Config, issued: nat)
    requires Correlated(st, issued)
    ensures Correlated(Feed(st, chunk, c, true), issued)
  {
    hide Correlated, Absorbed, Overflows;
    CutCorrelates(st, issued);
    AbsorbedCorrelates(st, chunk, issued);
    DrainCorrelates(Absorbed(st, chunk), c, issued);
  }

  predicate Good(cl: Client) {
    cl.nextId == cl.issued % U64_RANGE && Correlated(cl.stream, cl.issued)
  }

  lemma PendingWithNew(pending: map<nat, nat>, closed: set<nat>, s: seq<nat>, issued: nat)
    requires PendingOk(pending, s, issued) && Below(s, issued)
    ensures PendingOk(Retained(pending, closed)[issued % U64_RANGE := issued], s, issued + 1) && Below(s, issued + 1)
  {
    var pending' := Retained(pending, closed)[issued % U64_RANGE := issued];
    forall id | id in pending' ensures pending'[id] < issued + 1 && pending'[id] % U64_RANGE == id && Free(pending'[id], s) {
      if id != issued % U64_RANGE {
        assert pending'[id] == pending[id];
      }
    }
  }

  lemma FetchCorrelates(cl: Client, closed: set<nat>, c: Config)
    requires Good(cl)
    ensures Good(Moved(cl, LocalFetch(closed), c))
  {
    if cl.stream.Open? {
      hide Answered, PendingOk, Below, Distinct, Retained, OwnId, TokenOf;
      PendingWithNew(cl.stream.pending, closed, Settled(cl.stream), cl.issued);
    }
  }

  /** Over any interleaving of local fetches and chunks the correlation is kept. */
  lemma {:induction false} RunCorrelates(cl: Client, ms: seq<Move>, c: Config)
    requires Good(cl)
    ensures Good(MovedAll(cl, ms, c))
    decreases |ms|
  {
    if ms != [] {
      var next := Moved(cl, ms[0], c);
      assert Good(next) by {
        hide Correlated;
        match ms[0]
        case Chunk(bytes) => FeedCorrelates(cl.stream, bytes, c, cl.issued);
        case LocalFetch(closed) => FetchCorrelates(cl, closed, c);
      }
      hide Good, Moved;
      RunCorrelates(next, ms[1..], c);
    }
  }

  const FRESH := Client(Open([], None, map[], []), 0, 0)

  predicate Results(log: seq<Event>, t: nat, i: nat) {
    i < |log| && log[i].Body? && log[i].fetch == Some(t)
  }

  lemma {:induction false} AnsweredAt(log: seq<Event>, t: nat, i: nat) returns (k: nat)
    requires Results(log, t, i)
    ensures k < |Answered(log)| && Answered(log)[k] == t
    ensures k < |Answered(log[..i + 1])| && Answered(log[..i + 1]) <= Answered(log) && k >= |Answered(log[..i])|
    decreases |log|
  {
    var above := log[..|log| - 1];
    if i == |log| - 1 {
      k := |Answered(above)|;
      assert log[..i + 1] == log && log[..i] == above;
    } else {
      assert Results(above, t, i);
      k := AnsweredAt(above, t, i);
      assert above[..i + 1] == log[..i + 1] && above[..i] == log[..i];
    }
  }

  predicate WholeRun(cl: Client, c: Config) {
    Valid(cl.stream, c) && Parses(cl.stream, c)
  }

  lemma {:induction false} RunParses(cl: Client, ms: seq<Move>, c: Config)
    requires WholeRun(cl, c)
    ensures WholeRun(MovedAll(cl, ms, c), c)
    decreases |ms|
  {
    if ms != [] {
      var next := Moved(cl, ms[0], c);
      hide Feed, FrameEnd, LogParses, Due;
      match ms[0] {
        case Chunk(bytes) =>
          FeedParses(cl.stream, bytes, c);
          FeedKeepsValid(cl.stream, bytes, c, true);
        case LocalFetch(closed) =>
      }
      RunParses(next, ms[1..], c);
    }
  }

  lemma StartsWhole(c: Config)
    ensures WholeRun(FRESH, c) && Good(FRESH)
  {
  }

  lemma ResultIsWhole(log: seq<Event>, t: nat, i: nat, c: Config)
    requires LogParses(log, c) && Results(log, t, i)
    ensures |log[i].bytes| == log[i].header.length
  {
    PrefixParses(log, i, c);
  }

  lemma {:induction false} AnsweredBelow(log: seq<Event>, i: nat, j: nat)
    requires i < j < |log|
    ensures |Answered(log[..i + 1])| <= |Answered(log[..j])|
    decreases j
  {
    if i + 1 < j {
      AnsweredBelow(log, i, j - 1);
    }
    assert log[..j][..j - 1] == log[..j - 1];
  }

  lemma {:induction false} LaterResult(log: seq<Event>, t: nat, i: nat, j: nat)
    requires Distinct(Answered(log)) && Results(log, t, i) && Results(log, t, j)
    ensures !(i < j)
  {
    if i < j {
      var k := AnsweredAt(log, t, i);
      var l := AnsweredAt(log, t, j);
      AnsweredBelow(log, i, j);
      hide Answered;
      assert false;
    }
  }

  lemma {:induction false} ResultIs(log: seq<Event>, t: nat, i: nat, issued: nat)
    requires Correlated(Closed(log), issued) && Results(log, t, i)
    ensures t < issued && log[i].header.requestId == t % U64_RANGE && Distinct(Answered(log))
  {
    var k := AnsweredAt(log, t, i);
    hide Answered;
    assert Answered(log) + [] == Answered(log);
  }

  /** From a fresh connection, over any interleaving: each fetch gets at most one result, of the
    * declared length, only from a header that carries its own id, the only fetch with that id while
    * fewer than 2^64 were made. */
  lemma EachFetchOnce(ms: seq<Move>, c: Config, t: nat, i: nat, u: nat, j: nat)
    requires var log := MovedAll(FRESH, ms, c).stream.log; Results(log, t, i) && Results(log, u, j)
    ensures var end := MovedAll(FRESH, ms, c);
      && t < end.issued && end.stream.log[i].header.requestId == t % U64_RANGE
      && |end.stream.log[i].bytes| == end.stream.log[i].header.length
      && (t == u <==> i == j)
      && (end.issued <= U64_RANGE ==> (end.stream.log[i].header.requestId == end.stream.log[j].header.requestId <==> i == j))
  {
    hide MovedAll, Correlated, Answered, Distinct, Valid, LogParses, Due;
    StartsWhole(c);
    RunCorrelates(FRESH, ms, c);
    RunParses(FRESH, ms, c);
    var end := MovedAll(FRESH, ms, c);
    var log := end.stream.log;
    ResultIsWhole(log, t, i, c);
    CutCorrelates(end.stream, end.issued);
    ResultIs(log, t, i, end.issued);
    ResultIs(log, u, j, end.issued);
    if t == u {
      LaterResult(log, t, i, j);
      LaterResult(log, t, j, i);
    }
  }
}
