/** The recency list of remembered servers over whole runs of `record`, and looking servers up. */
module ServerRecency {
  import opened KnownServers
  import opened Seqs
  import opened Wrappers

  /** One letter in lower case, ASCII only. */
  function FoldChar(c: char): char {
    if 'A' <= c <= 'Z' then (c as int + 32) as char else c
  }

  function Fold(s: string): (t: string)
    ensures |t| == |s| && forall i | 0 <= i < |s| :: t[i] == FoldChar(s[i])
  {
    if s == "" then "" else [FoldChar(s[0])] + Fold(s[1..])
  }

  /** The same endpoint, or the same server elsewhere. */
  predicate Shares(a: Server, b: Server) {
    a.addr == b.addr || Fold(a.fingerprint) == Fold(b.fingerprint)
  }

  /** The same letter, in whichever case, or the same other character. */
  predicate SameLetter(c: char, d: char) {
    c == d || ('A' <= c <= 'Z' && d as int - c as int == 32) || ('A' <= d <= 'Z' && c as int - d as int == 32)
  }

  /** Servers are the same if and only if they have one address, or fingerprints that differ in the
    * case of letters at most. */
  lemma SharesIgnoresCase(a: Server, b: Server)
    ensures Shares(a, b) <==>
            a.addr == b.addr ||
            (|a.fingerprint| == |b.fingerprint| && forall i | 0 <= i < |a.fingerprint| :: SameLetter(a.fingerprint[i], b.fingerprint[i]))
  {
    var f, g := a.fingerprint, b.fingerprint;
    assert forall c, d :: FoldChar(c) == FoldChar(d) <==> SameLetter(c, d);
    hide FoldChar, SameLetter;
    if |f| == |g| && forall i | 0 <= i < |f| :: SameLetter(f[i], g[i]) {
      assert forall i | 0 <= i < |f| :: FoldChar(f[i]) == FoldChar(g[i]);
      assert Fold(f) == Fold(g);
    }
    if Fold(f) == Fold(g) {
      assert forall i | 0 <= i < |f| :: FoldChar(f[i]) == Fold(f)[i] == Fold(g)[i] == FoldChar(g[i]);
    }
  }

  /** What `record` keeps of a list when `x` is recorded. */
  function Kept(x: Server, xs: seq<Server>): (ys: seq<Server>)
    ensures |ys| <= |xs|
  {
    if xs == [] then [] else (if Shares(x, xs[0]) then [] else [xs[0]]) + Kept(x, xs[1..])
  }

  function Truncated(xs: seq<Server>): seq<Server> {
    if |xs| <= MAX_REMEMBERED then xs else xs[..MAX_REMEMBERED]
  }

  function Recorded(xs: seq<Server>, x: Server): seq<Server> {
    Truncated([x] + Kept(x, xs))
  }

  // ----- The list over a run

  /** The list after the records of `rs`, the newest first. */
  function Remembered(rs: seq<Server>): seq<Server> {
    if rs == [] then [] else Recorded(Remembered(rs[1..]), rs[0])
  }

  /** Whether some record newer than the i-th shares its address or its fingerprint. */
  predicate Superseded(rs: seq<Server>, i: nat)
    requires i < |rs|
  {
    exists j | 0 <= j < i :: Shares(rs[j], rs[i])
  }

  /** The records that no newer one supersedes, newest first. */
  function Current(rs: seq<Server>): seq<Server> {
    if rs == [] then [] else [rs[0]] + Kept(rs[0], Current(rs[1..]))
  }

  predicate Prefix(a: seq<Server>, b: seq<Server>) {
    |a| <= |b| && a == b[..|a|]
  }

  lemma {:induction false} KeptPrefix(x: Server, a: seq<Server>, b: seq<Server>)
    requires Prefix(a, b)
    ensures Prefix(Kept(x, a), Kept(x, b))
  {
    if a != [] {
      assert a[0] == b[0] && a[1..] == b[1..][..|a| - 1];
      KeptPrefix(x, a[1..], b[1..]);
    }
  }

  /** Over any run from an empty store the list is a prefix, of at most five, of the records no newer
    * one supersedes. */
  lemma {:induction false} RememberedIsPrefix(rs: seq<Server>)
    ensures Prefix(Remembered(rs), Current(rs)) && |Remembered(rs)| <= MAX_REMEMBERED
    ensures rs != [] ==> Remembered(rs) != [] && Remembered(rs)[0] == rs[0]
  {
    if rs != [] {
      RememberedIsPrefix(rs[1..]);
      KeptPrefix(rs[0], Remembered(rs[1..]), Current(rs[1..]));
      assert Prefix([rs[0]] + Kept(rs[0], Remembered(rs[1..])), Current(rs));
    }
  }

  lemma {:induction false} KeptIs(x: Server, xs: seq<Server>, y: Server)
    ensures y in Kept(x, xs) <==> y in xs && !Shares(x, y)
  {
    if xs != [] {
      KeptIs(x, xs[1..], y);
      assert y in xs <==> y == xs[0] || y in xs[1..];
    }
  }

  lemma CurrentNext(rs: seq<Server>, y: Server)
    requires rs != []
    ensures y in Current(rs) <==> y == rs[0] || (y in Current(rs[1..]) && !Shares(rs[0], y))
  {
    KeptIs(rs[0], Current(rs[1..]), y);
    hide Kept;
  }

  lemma {:induction false} CurrentHas(rs: seq<Server>, i: nat)
    requires i < |rs| && !Superseded(rs, i)
    ensures rs[i] in Current(rs)
  {
    hide Superseded, Current, Shares;
    CurrentNext(rs, rs[i]);
    if i > 0 {
      SupersededBelow(rs, i - 1);
      CurrentHas(rs[1..], i - 1);
    }
  }

  lemma {:induction false} CurrentComesFrom(rs: seq<Server>, y: Server) returns (i: nat)
    requires y in Current(rs)
    ensures i < |rs| && rs[i] == y && !Superseded(rs, i)
  {
    hide Shares;
    CurrentNext(rs, y);
    i := 0;
    if y != rs[0] {
      i := CurrentComesFrom(rs[1..], y);
      NotSuperseded(rs, i);
      i := i + 1;
    }
  }

  /** What `Current` means: a record is in it exactly when one of its occurrences is superseded by no
    * newer record. */
  lemma CurrentIs(rs: seq<Server>, y: Server)
    ensures y in Current(rs) <==> exists i | 0 <= i < |rs| :: rs[i] == y && !Superseded(rs, i)
  {
    hide Superseded, Current;
    if y in Current(rs) {
      var i := CurrentComesFrom(rs, y);
    }
    if i :| 0 <= i < |rs| && rs[i] == y && !Superseded(rs, i) {
      CurrentHas(rs, i);
    }
  }

  lemma NotSuperseded(rs: seq<Server>, i: nat)
    requires rs != [] && i < |rs[1..]| && !Superseded(rs[1..], i) && !Shares(rs[0], rs[1..][i])
    ensures !Superseded(rs, i + 1)
  {
    forall j | 0 <= j < i + 1 ensures !Shares(rs[j], rs[i + 1]) {
      if j > 0 {
        assert rs[j] == rs[1..][j - 1];
      }
    }
  }

  lemma SupersededBelow(rs: seq<Server>, i: nat)
    requires rs != [] && i < |rs[1..]| && !Superseded(rs, i + 1)
    ensures !Superseded(rs[1..], i) && !Shares(rs[0], rs[1..][i])
  {
    forall j | 0 <= j < i ensures !Shares(rs[1..][j], rs[1..][i]) {
      assert rs[1..][j] == rs[j + 1];
    }
    assert !Shares(rs[0], rs[i + 1]);
  }

  predicate NoneShared(xs: seq<Server>) {
    forall i, j | 0 <= i < j < |xs| :: !Shares(xs[i], xs[j])
  }

  lemma {:induction false} KeptShareNothing(x: Server, xs: seq<Server>)
    requires NoneShared(xs)
    ensures NoneShared(Kept(x, xs)) && forall i | 0 <= i < |Kept(x, xs)| :: !Shares(x, Kept(x, xs)[i])
  {
    if xs != [] {
      KeptShareNothing(x, xs[1..]);
      var rest := Kept(x, xs[1..]);
      forall i | 0 <= i < |rest| ensures !Shares(xs[0], rest[i]) {
        KeptIs(x, xs[1..], rest[i]);
        var j :| 0 <= j < |xs[1..]| && xs[1..][j] == rest[i];
        assert xs[j + 1] == rest[i];
      }
    }
  }

  /** No two remembered servers share an address or a fingerprint. */
  lemma {:induction false} RememberedShareNothing(rs: seq<Server>)
    ensures NoneShared(Remembered(rs))
  {
    if rs != [] {
      RememberedShareNothing(rs[1..]);
      KeptShareNothing(rs[0], Remembered(rs[1..]));
    }
  }

  // ----- The list in the file

  /** One successful connection, the hostname as it came over the wire. */
  datatype Success = Success(addr: Addr, fingerprint: string, hostname: Option<string>, now: nat)

  /** sanitized_hostname: a name that could break the file's lines is recorded as absent. */
  function Sanitized(hostname: Option<string>, e: Env): (h: Option<string>)
    ensures h.Some? ==> Word(h.value, e)
  {
    if hostname.Some? && hostname.value != "" &&
       forall i | 0 <= i < |hostname.value| :: !e.isSpace(hostname.value[i]) && !e.isControl(hostname.value[i])
    then hostname else None
  }

  function NewRecord(x: Success, e: Env): Server {
    Server(x.addr, x.fingerprint, Sanitized(x.hostname, e), x.now)
  }

  /** The file after one more success: load, move to the front, save. */
  function RecordText(text: string, x: Success, e: Env): string {
    SaveText(Recorded(LoadText(text, e), NewRecord(x, e)), e)
  }

  /** The file after the successes `xs`, the newest first, from an empty or missing store. */
  function FileAfter(xs: seq<Success>, e: Env): string {
    if xs == [] then "" else RecordText(FileAfter(xs[1..], e), xs[0], e)
  }

  predicate Sane(x: Success, e: Env) {
    Word(x.fingerprint, e) && x.now < U64_RANGE
  }

  /** The records as they are read back. */
  function AsRecords(xs: seq<Success>, e: Env): (rs: seq<Server>)
    ensures |rs| == |xs|
  {
    if xs == [] then [] else [AsRead(NewRecord(xs[0], e))] + AsRecords(xs[1..], e)
  }

  predicate ReadBack(xs: seq<Server>, e: Env) {
    forall i | 0 <= i < |xs| :: Storable(xs[i], e) && AsRead(xs[i]) == xs[i]
  }

  lemma {:induction false} KeptAreRead(x: Server, xs: seq<Server>, e: Env)
    requires ReadBack(xs, e)
    ensures ReadBack(Kept(x, xs), e) && Kept(x, xs) == Kept(AsRead(x), xs)
  {
    hide Storable, Fold;
    if xs != [] {
      assert Storable(xs[0], e) && AsRead(xs[0]) == xs[0];
      KeptAreRead(x, xs[1..], e);
    }
  }

  lemma {:induction false} RecordedIsRead(xs: seq<Server>, x: Server, e: Env)
    requires ReadBack(xs, e) && Storable(x, e)
    ensures AllStorable(Recorded(xs, x), e)
    ensures AllAsRead(Recorded(xs, x)) == Recorded(xs, AsRead(x)) && ReadBack(Recorded(xs, AsRead(x)), e)
  {
    hide Kept, Storable, AllAsRead, ReadBack, AllStorable, Truncated;
    KeptAreRead(x, xs, e);
    TruncatedIsRead(x, Kept(x, xs), e);
  }

  lemma {:induction false} TruncatedIsRead(x: Server, kept: seq<Server>, e: Env)
    requires ReadBack(kept, e) && Storable(x, e)
    ensures var a, b := Truncated([x] + kept), Truncated([AsRead(x)] + kept);
      AllStorable(a, e) && AllAsRead(a) == b && ReadBack(b, e)
  {
    AsReadIsStorable(x, e);
    hide Storable, AllAsRead;
    AsReadTwice(x);
    var a, b := Truncated([x] + kept), Truncated([AsRead(x)] + kept);
    forall i | 0 <= i < |a| ensures Storable(a[i], e) && Storable(b[i], e) && AsRead(a[i]) == b[i] && AsRead(b[i]) == b[i] {
      if i > 0 {
        assert a[i] == kept[i - 1] && b[i] == kept[i - 1];
      }
    }
  }

  lemma AsReadTwice(x: Server)
    ensures AsRead(AsRead(x)) == AsRead(x)
  {
  }

  lemma AsReadIsStorable(x: Server, e: Env)
    requires Storable(x, e)
    ensures Storable(AsRead(x), e)
  {
  }

  lemma {:induction false} NoneSharedAreDistinct(xs: seq<Server>)
    requires NoneShared(xs)
    ensures DistinctAddrs(xs)
  {
  }

  /** Over any successes from an empty store, what the file holds is the recency list of the records
    * as read back. */
  lemma {:induction false} FileRemembers(xs: seq<Success>, e: Env)
    requires Lawful(e) && forall i | 0 <= i < |xs| :: Sane(xs[i], e)
    ensures LoadText(FileAfter(xs, e), e) == Remembered(AsRecords(xs, e))
    ensures ReadBack(Remembered(AsRecords(xs, e)), e)
  {
    hide Lawful, Word, LoadText, SaveText, AllAsRead, ReadBack, Recorded, Sanitized;
    if xs == [] {
      NothingLoaded(e);
    } else {
      var rs, x := AsRecords(xs[1..], e), NewRecord(xs[0], e);
      FileRemembers(xs[1..], e);
      assert Sane(xs[0], e);
      assert AsRecords(xs, e)[1..] == rs;
      RecordedIsRead(Remembered(rs), x, e);
      RecordedDistinct(rs, x);
      SaveThenLoad(Recorded(Remembered(rs), x), e);
    }
  }

  /** The newest success is first in the file, under the name it gave unless that is empty, holds white
    * space or control characters, or is a lone dash. */
  lemma NewestComesFirst(xs: seq<Success>, e: Env)
    requires Lawful(e) && xs != [] && forall i | 0 <= i < |xs| :: Sane(xs[i], e)
    ensures var x, rs := xs[0], LoadText(FileAfter(xs, e), e);
      && rs != [] && rs[0].addr == x.addr && rs[0].fingerprint == x.fingerprint && rs[0].lastConnected == x.now
      && rs[0].hostname == if x.hostname.Some? && Nameable(x.hostname.value, e) then x.hostname else None
  {
    hide LoadText, FileAfter, Remembered, Lawful, ReadBack, DistinctAddrs;
    FileRemembers(xs, e);
    RememberedIsPrefix(AsRecords(xs, e));
  }

  predicate Nameable(h: string, e: Env) {
    h != "" && h != "-" && forall i | 0 <= i < |h| :: !(e.isSpace(h[i]) || e.isControl(h[i]))
  }

  lemma NothingLoaded(e: Env)
    ensures LoadText("", e) == [] && ReadBack([], e)
  {
  }

  lemma {:induction false} RecordedDistinct(rs: seq<Server>, x: Server)
    ensures DistinctAddrs(Recorded(Remembered(rs), x))
  {
    RememberedShareNothing([x] + rs);
    assert ([x] + rs)[1..] == rs;
    NoneSharedAreDistinct(Recorded(Remembered(rs), x));
  }

  /** The two retain passes of record. */
  method Retain(servers: seq<Server>, x: Server) returns (kept: seq<Server>)
    ensures kept == Kept(x, servers)
  {
    hide Fold, Kept;
    kept := [];
    assert servers[0..] == servers && [] + Kept(x, servers) == Kept(x, servers);
    for i := 0 to |servers|
      invariant kept + Kept(x, servers[i..]) == Kept(x, servers)
    {
      KeptNext(x, servers, i);
      Assoc(kept, [servers[i]], Kept(x, servers[i + 1..]));
      if Fold(x.fingerprint) != Fold(servers[i].fingerprint) && x.addr != servers[i].addr {
        kept := kept + [servers[i]];
      }
    }
    KeptNone(x, servers[|servers|..]);
    assert kept + [] == kept;
  }

  lemma KeptNext(x: Server, xs: seq<Server>, i: nat)
    requires i < |xs|
    ensures Kept(x, xs[i..]) == (if Shares(x, xs[i]) then [] else [xs[i]]) + Kept(x, xs[i + 1..])
  {
    hide Shares;
    assert xs[i..][1..] == xs[i + 1..];
    assert [] + Kept(x, xs[i + 1..]) == Kept(x, xs[i + 1..]);
  }

  lemma KeptNone(x: Server, xs: seq<Server>)
    requires xs == []
    ensures Kept(x, xs) == []
  {
  }

  /** record: drops the server's and the address's other records, inserts at the front, truncates. */
  method Record(text: string, x: Success, e: Env) returns (out: string)
    ensures out == RecordText(text, x, e)
  {
    hide LoadText, Sanitized, Kept, SaveText;
    var servers := Load(text, e);
    var kept := Retain(servers, NewRecord(x, e));
    servers := [NewRecord(x, e)] + kept;
    if |servers| > MAX_REMEMBERED {
      servers := servers[..MAX_REMEMBERED];
    }
    out := Save(servers, e);
  }

  // ----- Looking a server up

  predicate StartsWith(s: string, p: string) {
    |p| <= |s| && s[..|p|] == p
  }

  datatype Found = Nobody | One(server: Server) | Ambiguous

  predicate MatchesAt(xs: seq<Server>, prefix: string, i: nat) {
    i < |xs| && StartsWith(xs[i].fingerprint, prefix)
  }

  /** find_by_fingerprint_prefix: one match or none; several are an error, never a silent first one. */
  method FindByFingerprintPrefix(xs: seq<Server>, host: string, lower: string -> string) returns (found: Found)
    ensures found.Nobody? <==> host == "" || forall i: nat :: !MatchesAt(xs, lower(host), i)
    ensures found.One? <==> host != "" && exists i: nat :: MatchesAt(xs, lower(host), i) && forall j: nat :: MatchesAt(xs, lower(host), j) ==> j == i
    ensures found.One? ==> exists i: nat :: MatchesAt(xs, lower(host), i) && xs[i] == found.server
    ensures found.Ambiguous? <==> host != "" && exists i: nat, j: nat :: i < j && MatchesAt(xs, lower(host), i) && MatchesAt(xs, lower(host), j)
  {
    if host == "" {
      return Nobody;
    }
    var prefix := lower(host);
    found := Nobody;
    ghost var first: nat, second: nat := 0, 0;
    hide StartsWith;
    for i := 0 to |xs|
      invariant found.Nobody? ==> forall j: nat | j < i :: !MatchesAt(xs, prefix, j)
      invariant found.One? ==> first < i && MatchesAt(xs, prefix, first) && xs[first] == found.server && forall j: nat | j < i :: MatchesAt(xs, prefix, j) ==> j == first
      invariant found.Ambiguous? ==> first < second && MatchesAt(xs, prefix, first) && MatchesAt(xs, prefix, second)
    {
      if StartsWith(xs[i].fingerprint, prefix) {
        if found.Nobody? {
          first := i;
        } else if found.One? {
          second := i;
        }
        assert MatchesAt(xs, prefix, i);
        found := match found
          case Nobody => One(xs[i])
          case One(_) => Ambiguous
          case Ambiguous => Ambiguous;
      }
    }
  }
}
