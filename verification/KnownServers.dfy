/** The text form of the remembered-servers store (`src/known_servers.rs`). */
module KnownServers {
  import opened Decimals
  import opened Seqs
  import opened Wrappers

  // Printing and reading addresses, and which characters are white space or control characters, are
  // parameters.

  const MAX_REMEMBERED: nat := 5
  const U64_RANGE: nat := 0x1_0000_0000_0000_0000

  datatype Addr = Addr(ip: nat, port: nat)

  datatype Server = Server(addr: Addr, fingerprint: string, hostname: Option<string>, lastConnected: nat)

  datatype Env = Env(show: Addr -> string, read: string -> Option<Addr>, isSpace: char -> bool, isControl: char -> bool)

  predicate HasSpace(s: string, e: Env) {
    exists i | 0 <= i < |s| :: e.isSpace(s[i])
  }

  /** Non-empty and free of white space. */
  predicate Word(s: string, e: Env) {
    s != "" && !HasSpace(s, e)
  }

  /** What is assumed of the environment: the separators are white space, digits and the dash are
    * not, and an address printed is a word that reads back. */
  ghost predicate Lawful(e: Env) {
    && e.isSpace(' ') && e.isSpace('\n') && e.isSpace('\r') && !e.isSpace('-')
    && (forall c | IsDigit(c) :: !e.isSpace(c))
    && (forall a :: Word(e.show(a), e) && e.read(e.show(a)) == Some(a))
  }

  // ----- Words and lines

  function WordLen(s: string, e: Env): (n: nat)
    ensures n <= |s| && (forall i | 0 <= i < n :: !e.isSpace(s[i])) && (n < |s| ==> e.isSpace(s[n]))
  {
    if s == "" || e.isSpace(s[0]) then 0 else 1 + WordLen(s[1..], e)
  }

  /** split_whitespace. */
  function Words(s: string, e: Env): seq<string>
    decreases |s|
  {
    if s == "" then []
    else if e.isSpace(s[0]) then Words(s[1..], e)
    else
      var n := WordLen(s, e);
      [s[..n]] + Words(s[n..], e)
  }

  lemma FirstWord(w: string, rest: string, e: Env)
    requires Word(w, e) && (rest == "" || e.isSpace(rest[0]))
    ensures Words(w + rest, e) == [w] + Words(rest, e)
  {
    var s := w + rest;
    assert forall i | 0 <= i < |w| :: s[i] == w[i] && !e.isSpace(w[i]);
    assert rest != "" ==> s[|w|] == rest[0];
    assert WordLen(s, e) == |w|;
    assert s[..|w|] == w && s[|w|..] == rest;
  }

  lemma TwoSpaces(rest: string, e: Env)
    requires Lawful(e)
    ensures Words("  " + rest, e) == Words(rest, e)
  {
    assert ("  " + rest)[1..] == " " + rest && (" " + rest)[1..] == rest;
  }

  function LineLen(s: string): (n: nat)
    ensures n <= |s| && (forall i | 0 <= i < n :: s[i] != '\n') && (n < |s| ==> s[n] == '\n')
  {
    if s == "" || s[0] == '\n' then 0 else 1 + LineLen(s[1..])
  }

  function Chomped(line: string): string {
    if line != "" && line[|line| - 1] == '\r' then line[..|line| - 1] else line
  }

  /** lines: split at newlines, a carriage return directly before one dropped, no empty last line. */
  function Lines(s: string): seq<string>
    decreases |s|
  {
    if s == "" then []
    else
      var n := LineLen(s);
      if n == |s| then [s] else [Chomped(s[..n])] + Lines(s[n + 1..])
  }

  lemma FirstLine(line: string, rest: string)
    requires (forall i | 0 <= i < |line| :: line[i] != '\n') && Chomped(line) == line
    ensures Lines(line + ("\n" + rest)) == [line] + Lines(rest)
  {
    var s := line + ("\n" + rest);
    FirstLineLen(line, rest);
    hide LineLen, Chomped;
    assert s[..|line|] == line && s[|line| + 1..] == rest;
  }

  lemma FirstLineLen(line: string, rest: string)
    requires forall i | 0 <= i < |line| :: line[i] != '\n'
    ensures LineLen(line + ("\n" + rest)) == |line|
  {
    var s := line + ("\n" + rest);
    assert s[|line|] == '\n' && forall i | 0 <= i < |line| :: s[i] == line[i];
  }

  // ----- One record

  /** An unsigned 64-bit number as the standard library reads one: digits, maybe after a plus. */
  function ReadU64(s: string): Option<nat> {
    var digits := if s != "" && s[0] == '+' then s[1..] else s;
    if digits != "" && AllDigits(digits) && Value(digits) < U64_RANGE then Some(Value(digits)) else None
  }

  function FormatLine(x: Server, e: Env): string {
    e.show(x.addr) + ("  " + (x.fingerprint + ("  " + ((if x.hostname.Some? then x.hostname.value else "-") + ("  " + Digits(x.lastConnected))))))
  }

  function ParseLine(line: string, e: Env): Option<Server> {
    var fields := Words(line, e);
    if |fields| != 4 then None
    else match (e.read(fields[0]), ReadU64(fields[3]))
      case (Some(addr), Some(secs)) => Some(Server(addr, fields[1], if fields[2] == "-" then None else Some(fields[2]), secs))
      case _ => None
  }

  /** A record the store can hold. */
  predicate Storable(x: Server, e: Env) {
    Word(x.fingerprint, e) && (x.hostname.Some? ==> Word(x.hostname.value, e)) && x.lastConnected < U64_RANGE
  }

  /** The record as it will be read: a host named by a lone dash is read as unnamed. */
  function AsRead(x: Server): Server {
    if x.hostname == Some("-") then x.(hostname := None) else x
  }

  lemma DigitsAreAWord(n: nat, e: Env)
    requires Lawful(e)
    ensures Word(Digits(n), e) && (n < U64_RANGE ==> ReadU64(Digits(n)) == Some(n))
  {
    ValueOfDigits(n);
    var s := Digits(n);
    assert IsDigit(s[0]);
    assert forall i | 0 <= i < |s| :: IsDigit(s[i]);
    hide Digits, Value;
  }

  lemma NextWord(w: string, rest: string, e: Env)
    requires Lawful(e) && Word(w, e)
    ensures Words(w + ("  " + rest), e) == [w] + Words(rest, e)
  {
    FirstWord(w, "  " + rest, e);
    TwoSpaces(rest, e);
  }

  lemma FourWords(a: string, b: string, c: string, d: string, e: Env)
    requires Lawful(e) && Word(a, e) && Word(b, e) && Word(c, e) && Word(d, e)
    ensures Words(a + ("  " + (b + ("  " + (c + ("  " + d))))), e) == [a, b, c, d]
  {
    hide *;
    NoWords(d, e);
    FirstWord(d, "", e);
    NextWord(c, d, e);
    NextWord(b, c + ("  " + d), e);
    NextWord(a, b + ("  " + (c + ("  " + d))), e);
  }

  lemma FieldsOf(x: Server, e: Env)
    requires Lawful(e) && Storable(x, e)
    ensures Words(FormatLine(x, e), e) ==
            [e.show(x.addr), x.fingerprint, if x.hostname.Some? then x.hostname.value else "-", Digits(x.lastConnected)]
  {
    hide Words, Digits;
    DigitsAreAWord(x.lastConnected, e);
    FourWords(e.show(x.addr), x.fingerprint, if x.hostname.Some? then x.hostname.value else "-", Digits(x.lastConnected), e);
  }

  lemma NoWords(s: string, e: Env)
    ensures s + "" == s && Words("", e) == []
  {
  }

  /** A record is read back as written, up to the lone dash: exactly unless its host is named "-". */
  lemma RecordReadsBack(x: Server, e: Env)
    requires Lawful(e) && Storable(x, e)
    ensures ParseLine(FormatLine(x, e), e) == Some(AsRead(x))
    ensures ParseLine(FormatLine(x, e), e) == Some(x) <==> x.hostname != Some("-")
  {
    hide Words, Digits, FormatLine, Storable;
    FieldsOf(x, e);
    DigitsFit64(x, e);
  }

  lemma DigitsFit64(x: Server, e: Env)
    requires Lawful(e) && Storable(x, e)
    ensures ReadU64(Digits(x.lastConnected)) == Some(x.lastConnected) && e.read(e.show(x.addr)) == Some(x.addr)
  {
    DigitsAreAWord(x.lastConnected, e);
  }

  // ----- The file

  function SaveText(xs: seq<Server>, e: Env): string {
    if xs == [] then "" else FormatLine(xs[0], e) + ("\n" + SaveText(xs[1..], e))
  }

  predicate Knows(xs: seq<Server>, addr: Addr) {
    exists i | 0 <= i < |xs| :: xs[i].addr == addr
  }

  predicate AllSpaces(s: string, e: Env) {
    forall i | 0 <= i < |s| :: e.isSpace(s[i])
  }

  /** One line of the file: blank and corrupt ones, and an address already there, are skipped. */
  function LoadLine(xs: seq<Server>, line: string, e: Env): seq<Server> {
    if AllSpaces(line, e) then xs
    else match ParseLine(line, e)
      case Some(x) => if Knows(xs, x.addr) then xs else xs + [x]
      case None => xs
  }

  function LoadLines(xs: seq<Server>, lines: seq<string>, e: Env): seq<Server>
    decreases |lines|
  {
    if lines == [] then xs else LoadLines(LoadLine(xs, lines[0], e), lines[1..], e)
  }

  function LoadText(text: string, e: Env): seq<Server> {
    LoadLines([], Lines(text), e)
  }

  predicate DistinctAddrs(xs: seq<Server>) {
    forall i, j | 0 <= i < j < |xs| :: xs[i].addr != xs[j].addr
  }

  predicate AllStorable(xs: seq<Server>, e: Env) {
    forall i | 0 <= i < |xs| :: Storable(xs[i], e)
  }

  function AllAsRead(xs: seq<Server>): (ys: seq<Server>)
    ensures |ys| == |xs| && forall i | 0 <= i < |xs| :: ys[i] == AsRead(xs[i])
  {
    if xs == [] then [] else [AsRead(xs[0])] + AllAsRead(xs[1..])
  }

  predicate NoNewline(s: string) {
    forall i | 0 <= i < |s| :: s[i] != '\n'
  }

  lemma WordIsOneLine(w: string, e: Env)
    requires Lawful(e) && Word(w, e)
    ensures NoNewline(w) && !AllSpaces(w, e) && w[|w| - 1] != '\r'
  {
    assert forall i | 0 <= i < |w| :: !e.isSpace(w[i]);
    assert !e.isSpace(w[0]);
  }

  /** A formatted record is one line that no reader of lines changes. */
  lemma FormattedIsOneLine(x: Server, e: Env)
    requires Lawful(e) && Storable(x, e)
    ensures var line := FormatLine(x, e); NoNewline(line) && Chomped(line) == line && !AllSpaces(line, e)
  {
    var a, b, c, d := e.show(x.addr), x.fingerprint, if x.hostname.Some? then x.hostname.value else "-", Digits(x.lastConnected);
    DigitsAreAWord(x.lastConnected, e);
    hide Digits;
    WordIsOneLine(a, e);
    WordIsOneLine(b, e);
    WordIsOneLine(c, e);
    WordIsOneLine(d, e);
    hide Word, Lawful;
    OneLineOfFour(a, b, c, d, e);
  }

  lemma OneLineOfFour(a: string, b: string, c: string, d: string, e: Env)
    requires NoNewline(a) && NoNewline(b) && NoNewline(c) && NoNewline(d) && !AllSpaces(a, e) && d != "" && d[|d| - 1] != '\r'
    ensures var line := a + ("  " + (b + ("  " + (c + ("  " + d)))));
      NoNewline(line) && Chomped(line) == line && !AllSpaces(line, e)
  {
    var s3 := c + ("  " + d);
    var s2 := b + ("  " + s3);
    var line := a + ("  " + s2);
    assert NoNewline(s3);
    assert NoNewline(s2);
    assert NoNewline(line);
    var i :| 0 <= i < |a| && !e.isSpace(a[i]);
    assert line[i] == a[i];
    assert line[|line| - 1] == s2[|s2| - 1] && s2[|s2| - 1] == s3[|s3| - 1] && s3[|s3| - 1] == d[|d| - 1];
  }

  lemma FirstSaved(x: Server, rest: string, xs: seq<Server>, e: Env)
    requires Lawful(e) && Storable(x, e) && !Knows(xs, x.addr)
    ensures LoadLines(xs, Lines(FormatLine(x, e) + ("\n" + rest)), e) == LoadLines(xs + [AsRead(x)], Lines(rest), e)
  {
    var line := FormatLine(x, e);
    FormattedIsOneLine(x, e);
    RecordReadsBack(x, e);
    hide FormatLine, Lines, ParseLine, Storable, Lawful, AllSpaces;
    FirstLine(line, rest);
    assert ([line] + Lines(rest))[1..] == Lines(rest);
  }

  /** Loading what was saved gives the list back, up to lone-dash hosts. */
  lemma {:induction false} LoadAfterSave(before: seq<Server>, xs: seq<Server>, e: Env)
    requires Lawful(e) && AllStorable(xs, e) && DistinctAddrs(before + AllAsRead(xs))
    ensures LoadLines(before, Lines(SaveText(xs, e)), e) == before + AllAsRead(xs)
    decreases |xs|
  {
    if xs == [] {
      assert before + [] == before;
    } else {
      var x, rest := xs[0], xs[1..];
      var all := before + AllAsRead(xs);
      assert AllAsRead(xs) == [AsRead(x)] + AllAsRead(rest);
      Assoc(before, [AsRead(x)], AllAsRead(rest));
      assert !Knows(before, x.addr) by {
        assert all[|before|] == AsRead(x);
        assert forall i | 0 <= i < |before| :: all[i] == before[i];
      }
      hide Lines, FormatLine, LoadLines, Lawful, Storable, AsRead, AllAsRead;
      FirstSaved(x, SaveText(rest, e), before, e);
      LoadAfterSave(before + [AsRead(x)], rest, e);
    }
  }

  lemma {:induction false} UnchangedWhenRead(xs: seq<Server>)
    ensures AllAsRead(xs) == xs <==> forall i | 0 <= i < |xs| :: xs[i].hostname != Some("-")
  {
    if forall i | 0 <= i < |xs| :: xs[i].hostname != Some("-") {
      assert forall i | 0 <= i < |xs| :: AllAsRead(xs)[i] == xs[i];
    }
    if i :| 0 <= i < |xs| && xs[i].hostname == Some("-") {
      assert AllAsRead(xs)[i] != xs[i];
    }
  }

  lemma NothingBefore(ys: seq<Server>)
    ensures [] + ys == ys
  {
  }

  lemma DistinctAsRead(xs: seq<Server>)
    requires DistinctAddrs(xs)
    ensures DistinctAddrs(AllAsRead(xs))
  {
    hide AllAsRead;
  }

  /** A well-formed list comes back unchanged exactly when no host is named by a lone dash. */
  lemma SaveThenLoad(xs: seq<Server>, e: Env)
    requires Lawful(e) && AllStorable(xs, e) && DistinctAddrs(xs)
    ensures LoadText(SaveText(xs, e), e) == AllAsRead(xs)
    ensures LoadText(SaveText(xs, e), e) == xs <==> forall i | 0 <= i < |xs| :: xs[i].hostname != Some("-")
  {
    hide LoadLines, Lines, SaveText, Lawful, Storable, AllAsRead;
    NothingBefore(AllAsRead(xs));
    DistinctAsRead(xs);
    LoadAfterSave([], xs, e);
    UnchangedWhenRead(xs);
  }

  /** The record a line of the file holds, if any. */
  function RecordOn(line: string, e: Env): Option<Server> {
    if AllSpaces(line, e) then None else ParseLine(line, e)
  }

  /** Line `i` holds `y`, and no line above it a record with that address. */
  predicate FirstAt(lines: seq<string>, i: nat, y: Server, e: Env) {
    i < |lines| && RecordOn(lines[i], e) == Some(y) &&
    forall j | 0 <= j < i :: RecordOn(lines[j], e).Some? ==> RecordOn(lines[j], e).value.addr != y.addr
  }

  lemma FirstAtNext(lines: seq<string>, i: nat, y: Server, e: Env)
    requires lines != []
    ensures FirstAt(lines, i + 1, y, e) <==>
            FirstAt(lines[1..], i, y, e) && (RecordOn(lines[0], e).Some? ==> RecordOn(lines[0], e).value.addr != y.addr)
  {
    hide RecordOn;
    var below := lines[1..];
    assert forall j | 0 <= j < |below| :: below[j] == lines[j + 1];
    if FirstAt(lines, i + 1, y, e) {
      assert forall j | 0 <= j < i :: below[j] == lines[j + 1];
    }
  }

  lemma {:induction false} FirstsBelow(lines: seq<string>, y: Server, e: Env)
    requires lines != []
    ensures (exists i: nat :: FirstAt(lines, i, y, e)) <==>
            RecordOn(lines[0], e) == Some(y) ||
            ((RecordOn(lines[0], e).Some? ==> RecordOn(lines[0], e).value.addr != y.addr) && exists i: nat :: FirstAt(lines[1..], i, y, e))
  {
    hide RecordOn;
    if i: nat :| FirstAt(lines, i, y, e) {
      if i > 0 {
        FirstAtNext(lines, i - 1, y, e);
      }
    }
    if RecordOn(lines[0], e) == Some(y) {
      assert FirstAt(lines, 0, y, e);
    }
    if i: nat :| FirstAt(lines[1..], i, y, e) {
      FirstAtNext(lines, i, y, e);
    }
  }

  lemma KnowsOneMore(xs: seq<Server>, x: Server, addr: Addr)
    ensures Knows(xs + [x], addr) <==> Knows(xs, addr) || x.addr == addr
  {
    if i :| 0 <= i < |xs| && xs[i].addr == addr {
      assert (xs + [x])[i] == xs[i];
    }
    assert (xs + [x])[|xs|] == x;
  }

  lemma {:induction false} LoadLinesKeepFirst(xs: seq<Server>, lines: seq<string>, y: Server, e: Env)
    ensures y in LoadLines(xs, lines, e) <==> y in xs || (!Knows(xs, y.addr) && exists i: nat :: FirstAt(lines, i, y, e))
    decreases |lines|
  {
    hide FirstAt, ParseLine, AllSpaces, Knows;
    if lines != [] {
      FirstsBelow(lines, y, e);
      LoadLinesKeepFirst(LoadLine(xs, lines[0], e), lines[1..], y, e);
      if RecordOn(lines[0], e).Some? {
        KnowsOneMore(xs, RecordOn(lines[0], e).value, y.addr);
      }
    } else {
      NothingFirst(y, e);
    }
  }

  lemma NothingFirst(y: Server, e: Env)
    ensures forall i: nat :: !FirstAt([], i, y, e)
  {
  }

  lemma {:induction false} LoadLinesDistinct(xs: seq<Server>, lines: seq<string>, e: Env)
    requires DistinctAddrs(xs)
    ensures DistinctAddrs(LoadLines(xs, lines, e))
    decreases |lines|
  {
    hide ParseLine, AllSpaces;
    if lines != [] {
      LoadLinesDistinct(LoadLine(xs, lines[0], e), lines[1..], e);
    }
  }

  /** What is loaded from any text: for each address, the record on the first line that holds one with
    * it; lines that hold none are skipped. */
  lemma LoadKeepsFirst(text: string, y: Server, e: Env)
    ensures DistinctAddrs(LoadText(text, e))
    ensures y in LoadText(text, e) <==> exists i: nat :: FirstAt(Lines(text), i, y, e)
  {
    hide RecordOn, LoadLines, Lines;
    LoadLinesKeepFirst([], Lines(text), y, e);
    LoadLinesDistinct([], Lines(text), e);
  }

  /** load: one pass over the lines. */
  method Load(text: string, e: Env) returns (servers: seq<Server>)
    ensures servers == LoadText(text, e)
  {
    servers := [];
    var lines := Lines(text);
    assert lines[0..] == lines;
    hide AllSpaces, ParseLine, Lines;
    for i := 0 to |lines|
      invariant LoadLines(servers, lines[i..], e) == LoadText(text, e)
    {
      assert lines[i..][1..] == lines[i + 1..];
      servers := LoadLine(servers, lines[i], e);
    }
  }

  /** The text save writes. */
  method Save(servers: seq<Server>, e: Env) returns (text: string)
    ensures text == SaveText(servers, e)
  {
    text := "";
    assert servers[0..] == servers;
    hide FormatLine;
    for i := 0 to |servers|
      invariant text + SaveText(servers[i..], e) == SaveText(servers, e)
    {
      assert servers[i..][1..] == servers[i + 1..];
      Assoc(text, FormatLine(servers[i], e) + "\n", SaveText(servers[i + 1..], e));
      assert FormatLine(servers[i], e) + "\n" + SaveText(servers[i + 1..], e) == FormatLine(servers[i], e) + ("\n" + SaveText(servers[i + 1..], e));
      text := text + (FormatLine(servers[i], e) + "\n");
    }
    assert text + "" == text;
  }
}
