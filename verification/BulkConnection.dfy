/** The client connection's bulk side as the object it is, its buffers updated in place.
  *
  * The parse loop works over offsets into the receive buffer and drains it once at the end; the
  * specification takes one frame at a time off the front.
  */
module BulkConnection {
  import opened BulkFetches
  import opened BulkStream
  import opened Seqs
  import opened Wrappers

  class Connection {
    const config: Config
    var bulkRecvBytes: seq<Byte>
    var incoming: Option<Payload>
    var pendingFetches: map<nat, nat>
    var nextFetchId: nat
    var closed: bool
    /** The frames handled and the payloads delivered or swallowed so far. */
    var log: seq<Event>

    constructor (config: Config)
      ensures this.config == config && Client(Stream(), nextFetchId, 0) == FRESH
    {
      this.config := config;
      bulkRecvBytes, incoming, pendingFetches, nextFetchId, closed, log := [], None, map[], 0, false, [];
    }

    function Stream(): State
      reads this
    {
      if closed then Closed(log) else Open(bulkRecvBytes, incoming, pendingFetches, log)
    }

    /** A local paste asks for content: the `closed` fetches are dropped, this one becomes pending
      * under the next id. */
    method RequestFetch(fetch: nat, expired: set<nat>) returns (requestId: nat)
      requires !closed && nextFetchId == fetch % U64_RANGE
      modifies `pendingFetches, `nextFetchId
      ensures Client(Stream(), nextFetchId, fetch + 1) ==
              Moved(old(Client(Stream(), nextFetchId, fetch)), LocalFetch(expired), config)
      ensures requestId == fetch % U64_RANGE && requestId in pendingFetches && pendingFetches[requestId] == fetch
    {
      requestId := nextFetchId;
      nextFetchId := (nextFetchId + 1) % U64_RANGE;
      pendingFetches := Retained(pendingFetches, expired)[requestId := fetch];
    }

    /** handle_bulk_messages: handles complete frames while there are any, then drops what was
      * consumed. `ok` is false when the connection must be reset. */
    method HandleBulkMessages() returns (ok: bool, updated: Option<Payload>)
      requires !closed && incoming.None?
      modifies `bulkRecvBytes, `pendingFetches, `log
      ensures Drain(old(Stream()), config) ==
              if ok then Open(bulkRecvBytes, updated, pendingFetches, log) else Closed(log)
    {
      hide Drain, FrameEnd;
      updated := None;
      var offset := 0;
      var bytesLen := |bulkRecvBytes|;
      ghost var b, end := bulkRecvBytes, Drain(Stream(), config);
      assert b[0..] == b;
      while offset < bytesLen
        invariant 0 <= offset <= bytesLen == |b| && bulkRecvBytes == b
        invariant Drain(Open(b[offset..], None, pendingFetches, log), config) == end
      {
        if !HasCompleteFrame(bulkRecvBytes[offset..]) {
          break;
        }
        var z := FrameEnd(bulkRecvBytes[offset..]);
        var consumed := z + 1;
        var raw := bulkRecvBytes[offset..offset + consumed];
        DrainFrom(b, offset, pendingFetches, log, config);
        var decoded := config.decode(bulkRecvBytes[offset..offset + z]);
        if decoded.None? {
          return false, None;
        }
        offset := offset + consumed;
        log := log + [Handled(raw, decoded.value)];
        if decoded.value.ClipboardHeader? {
          var h := decoded.value.header;
          if h.length > config.maxClipboardBytes {
            return false, None;
          }
          var fetch := Fetched(pendingFetches, h.requestId);
          pendingFetches := pendingFetches - {h.requestId};
          var remainder := bulkRecvBytes[offset..];
          if h.length <= |remainder| {
            log := log + [Body(h, fetch, remainder[..h.length])];
            DropDrop(b, offset, h.length);
            offset := offset + h.length;
          } else {
            bulkRecvBytes := [];
            return true, Some(Payload(h, fetch, remainder, h.length - |remainder|));
          }
        }
      }
      DrainDone(b, offset, pendingFetches, log, config);
      bulkRecvBytes := bulkRecvBytes[offset..];
      ok := true;
    }

    /** handle_bulk_data_or_messages: raw payload bytes first, then frames. */
    method HandleBulkDataOrMessages(chunk: seq<Byte>)
      requires Valid(Stream(), config) && !closed
      modifies `bulkRecvBytes, `incoming, `pendingFetches, `log, `closed
      ensures Stream() == Feed(old(Stream()), chunk, config, true)
      ensures Valid(Stream(), config)
    {
      FeedKeepsValid(Stream(), chunk, config, true);
      var ok, updated := true, None;
      if incoming.Some? {
        var p := incoming.value;
        if p.remaining >= |chunk| {
          p := p.(bytes := p.bytes + chunk, remaining := p.remaining - |chunk|);
        } else {
          bulkRecvBytes := bulkRecvBytes + chunk[p.remaining..];
          p := p.(bytes := p.bytes + chunk[..p.remaining], remaining := 0);
          if |bulkRecvBytes| > MAX_FRAME_BUFFER_BYTES {
            closed := true;
            return;
          }
        }
        incoming := Some(p);
        if p.remaining == 0 {
          incoming := None;
          log := log + [Body(p.header, p.fetch, p.bytes)];
        }
        PayloadTaken(old(Stream()), chunk);
        assert Stream() == Absorbed(old(Stream()), chunk);
        if bulkRecvBytes != [] {
          ok, updated := HandleBulkMessages();
          incoming := updated;
        }
      } else {
        bulkRecvBytes := bulkRecvBytes + chunk;
        if |bulkRecvBytes| > MAX_FRAME_BUFFER_BYTES {
          closed := true;
          return;
        }
        ok, updated := HandleBulkMessages();
        incoming := updated;
      }
      closed := !ok;
    }
  }

  lemma FrameInPlace(b: seq<Byte>, offset: nat)
    requires offset <= |b| && HasCompleteFrame(b[offset..])
    ensures var z := FrameEnd(b[offset..]);
      && offset + z < |b|
      && b[offset..][..z] == b[offset..offset + z]
      && b[offset..][..z + 1] == b[offset..offset + (z + 1)]
      && b[offset..][z + 1..] == b[offset + (z + 1)..]
  {
    hide FrameEnd;
  }

  lemma DrainDone(b: seq<Byte>, offset: nat, pending: map<nat, nat>, log: seq<Event>, c: Config)
    requires offset <= |b| && !HasCompleteFrame(b[offset..])
    ensures Drain(Open(b[offset..], None, pending, log), c) == Open(b[offset..], None, pending, log)
  {
  }

  lemma DrainStops(st: State, c: Config)
    requires st.Closed? || st.incoming.Some?
    ensures Drain(st, c) == st
  {
  }

  /** One frame of a buffer, by offsets into it. */
  lemma {:induction false} DrainFrom(b: seq<Byte>, offset: nat, pending: map<nat, nat>, log: seq<Event>, c: Config)
    requires offset <= |b| && HasCompleteFrame(b[offset..])
    ensures var z := FrameEnd(b[offset..]);
      && offset + z < |b|
      && var next := AfterFrame(c.decode(b[offset..offset + z]), b[offset..offset + (z + 1)], b[offset + (z + 1)..], pending, log, c);
        && Drain(Open(b[offset..], None, pending, log), c) == Drain(next, c)
        && (next.Closed? || next.incoming.Some? ==> Drain(next, c) == next)
  {
    var from := Open(b[offset..], None, pending, log);
    DrainIsStep(from, c);
    FrameInPlace(b, offset);
    assert Step(from, c) == AfterFrame(c.decode(from.buffer[..FrameEnd(from.buffer)]), from.buffer[..FrameEnd(from.buffer) + 1],
                                       from.buffer[FrameEnd(from.buffer) + 1..], pending, log, c);
    var next := Step(from, c);
    hide *;
    if next.Closed? || next.incoming.Some? {
      DrainStops(next, c);
    }
  }

  lemma PayloadTaken(st: State, chunk: seq<Byte>)
    ensures st.Open? && st.incoming.Some? && st.incoming.value.remaining == |chunk| ==>
      chunk[..|chunk|] == chunk && chunk[|chunk|..] == [] && st.buffer + [] == st.buffer
  {
  }
}
