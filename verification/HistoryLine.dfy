/** History at the level of characters: printing and reading one line, and a text as its lines.
  *
  * Whether a value is TOML is a parameter. A line reads as an entry or a tag exactly when it is what
  * such an entry or tag prints, so the line-level view loses nothing.
  */
module HistoryLine {
  import opened HistoryText
  import opened Seqs
  import opened Timestamps
  import opened Wrappers

  const WAS_PREFIX := "# was: "
  const UNSET_PREFIX := "# unset: "
  const AT := " @ "

  type Grammar = string -> bool

  // ----- One line

  predicate StartsWith(s: string, p: string) {
    |p| <= |s| && s[..|p|] == p
  }

  predicate IsAsciiSpace(c: char) {
    c == ' ' || c == '\t' || c == '\n' || c == '\r' || c as int == 12
  }

  predicate AllSpace(s: string) {
    forall i | 0 <= i < |s| :: IsAsciiSpace(s[i])
  }

  predicate NoSpace(s: string) {
    forall i | 0 <= i < |s| :: !IsAsciiSpace(s[i])
  }

  predicate IsAt(s: string, i: nat) {
    i + 3 <= |s| && s[i] == ' ' && s[i + 1] == '@' && s[i + 2] == ' '
  }

  /** The last " @ " that starts below `n`. */
  function LastAt(s: string, n: nat): (i: Option<nat>)
    ensures i.Some? ==> i.value < n && IsAt(s, i.value) && forall j | i.value < j < n :: !IsAt(s, j)
    ensures i.None? ==> forall j | 0 <= j < n :: !IsAt(s, j)
  {
    if n == 0 then None else if IsAt(s, n - 1) then Some(n - 1) else LastAt(s, n - 1)
  }

  /** parse_was_line: the value is what stands before the last " @ ". */
  function ParseWas(line: string, isToml: Grammar): Option<WasEntry> {
    if !StartsWith(line, WAS_PREFIX) then None
    else
      var rest := line[|WAS_PREFIX|..];
      var at := LastAt(rest, |rest|);
      if at.None? then None
      else
        var value, timestamp := rest[..at.value], rest[at.value + 3..];
        if ValidTimestamp(timestamp) && isToml(value) then Some(WasEntry(value, timestamp)) else None
  }

  /** parse_unset_tag. */
  function ParseTag(line: string): Option<string> {
    if StartsWith(line, UNSET_PREFIX) && |line| > |UNSET_PREFIX| && NoSpace(line[|UNSET_PREFIX|..])
    then Some(line[|UNSET_PREFIX|..]) else None
  }

  /** A line as it is written, without its newline. */
  function Show(l: Line): string {
    match l
    case Was(e) => WAS_PREFIX + (e.value + (AT + e.timestamp))
    case Tag(flag) => UNSET_PREFIX + flag
    case Hash(text) => text
    case Blank => ""
    case Space(text) => text
    case Other(text) => text
  }

  function Classify(s: string, isToml: Grammar): Line {
    match (ParseWas(s, isToml), ParseTag(s))
    case (Some(e), _) => Was(e)
    case (None, Some(flag)) => Tag(flag)
    case (None, None) =>
      if s == "" then Blank
      else if s[0] == '#' then Hash(s)
      else if AllSpace(s) then Space(s)
      else Other(s)
  }

  lemma StampHasNoAt(ts: string)
    requires ValidTimestamp(ts)
    ensures forall i | 0 <= i < |ts| :: ts[i] != ' ' && ts[i] != '@'
  {
    forall i | 0 <= i < |ts| ensures ts[i] != ' ' && ts[i] != '@' {
      if 0 <= i < 4 { assert ts[i] == ts[0..4][i]; }
      if 5 <= i < 7 { assert ts[i] == ts[5..7][i - 5]; }
      if 8 <= i < 10 { assert ts[i] == ts[8..10][i - 8]; }
      if 11 <= i < 13 { assert ts[i] == ts[11..13][i - 11]; }
      if 14 <= i < 16 { assert ts[i] == ts[14..16][i - 14]; }
      if 17 <= i < 19 { assert ts[i] == ts[17..19][i - 17]; }
    }
  }

  lemma LastAtIs(value: string, ts: string)
    requires ValidTimestamp(ts)
    ensures var s := value + (AT + ts); LastAt(s, |s|) == Some(|value|)
  {
    var s := value + (AT + ts);
    StampHasNoAt(ts);
    hide ValidTimestamp;
    assert s[|value|] == ' ' && s[|value| + 1] == '@' && s[|value| + 2] == ' ';
    forall j | |value| < j < |s| ensures !IsAt(s, j) {
      assert j >= |value| + 3 ==> s[j] == ts[j - |value| - 3];
      assert j == |value| + 2 && j + 1 < |s| ==> s[j + 1] == ts[0];
    }
    assert IsAt(s, |value|);
  }

  lemma Prefixed(p: string, rest: string)
    ensures StartsWith(p + rest, p) && (p + rest)[|p|..] == rest
  {
  }

  lemma WithoutPrefix(s: string, p: string)
    requires StartsWith(s, p)
    ensures s == p + s[|p|..]
  {
  }

  lemma AroundAt(s: string, i: nat)
    requires IsAt(s, i)
    ensures s == s[..i] + (AT + s[i + 3..])
  {
    assert s[i..i + 3] == AT;
  }

  lemma ShownIsParsed(e: WasEntry, isToml: Grammar)
    requires isToml(e.value) && ValidTimestamp(e.timestamp)
    ensures ParseWas(Show(Was(e)), isToml) == Some(e)
  {
    hide ValidTimestamp, LastAt, StartsWith;
    Prefixed(WAS_PREFIX, e.value + (AT + e.timestamp));
    LastAtIs(e.value, e.timestamp);
    AroundValue(e.value, e.timestamp);
  }

  lemma AroundValue(value: string, timestamp: string)
    ensures var rest := value + (AT + timestamp);
      rest[..|value|] == value && rest[|value| + 3..] == timestamp
  {
  }

  lemma ParsedIsShown(line: string, e: WasEntry, isToml: Grammar)
    requires ParseWas(line, isToml) == Some(e)
    ensures line == Show(Was(e)) && isToml(e.value) && ValidTimestamp(e.timestamp)
  {
    hide ValidTimestamp, LastAt;
    WithoutPrefix(line, WAS_PREFIX);
    var rest := line[|WAS_PREFIX|..];
    AroundAt(rest, LastAt(rest, |rest|).value);
  }

  /** A line reads as an entry exactly when it is that entry printed, with a value that is TOML and
    * a plausible timestamp: a value that itself contains " @ " is no exception. */
  lemma ParseWasIsShow(line: string, e: WasEntry, isToml: Grammar)
    ensures ParseWas(line, isToml) == Some(e) <==> line == Show(Was(e)) && isToml(e.value) && ValidTimestamp(e.timestamp)
  {
    hide *;
    if ParseWas(line, isToml) == Some(e) {
      ParsedIsShown(line, e, isToml);
    }
    if line == Show(Was(e)) && isToml(e.value) && ValidTimestamp(e.timestamp) {
      ShownIsParsed(e, isToml);
    }
  }

  lemma ParseTagIsShow(line: string, flag: string)
    ensures ParseTag(line) == Some(flag) <==> line == Show(Tag(flag)) && flag != "" && NoSpace(flag)
  {
    hide NoSpace;
    Prefixed(UNSET_PREFIX, flag);
    if StartsWith(line, UNSET_PREFIX) {
      WithoutPrefix(line, UNSET_PREFIX);
    }
  }

  /** Reading a line loses nothing: what is shown is what was read. */
  lemma ShowClassified(s: string, isToml: Grammar)
    ensures Show(Classify(s, isToml)) == s
  {
    var was, tag := ParseWas(s, isToml), ParseTag(s);
    if was.Some? {
      ParseWasIsShow(s, was.value, isToml);
    } else if tag.Some? {
      ParseTagIsShow(s, tag.value);
    }
  }

  // ----- A text as its lines

  function LineEnd(s: string): (i: nat)
    ensures i <= |s| && (i < |s| ==> s[i] == '\n') && forall j | 0 <= j < i :: s[j] != '\n'
  {
    if s == "" || s[0] == '\n' then 0 else 1 + LineEnd(s[1..])
  }

  function Parse(s: string, isToml: Grammar): Text
    decreases |s|
  {
    var i := LineEnd(s);
    if i == |s| then Text([], Classify(s, isToml))
    else
      var below := Parse(s[i + 1..], isToml);
      Text([Classify(s[..i], isToml)] + below.lines, below.tail)
  }

  function Unparse(t: Text): string
    decreases |t.lines|
  {
    if t.lines == [] then Show(t.tail)
    else Show(t.lines[0]) + ("\n" + Unparse(Text(t.lines[1..], t.tail)))
  }

  lemma SplitLine(s: string)
    requires LineEnd(s) < |s|
    ensures s == s[..LineEnd(s)] + ("\n" + s[LineEnd(s) + 1..])
  {
    hide LineEnd;
    AroundNewline(s, LineEnd(s));
  }

  lemma AroundNewline(s: string, i: nat)
    requires i < |s| && s[i] == '\n'
    ensures s == s[..i] + ("\n" + s[i + 1..])
  {
    SplitAt(s, i);
    var rest := s[i..];
    assert rest == [rest[0]] + rest[1..] && rest[1..] == s[i + 1..];
  }

  lemma {:induction false} UnparseParsed(s: string, isToml: Grammar)
    ensures Unparse(Parse(s, isToml)) == s
    decreases |s|
  {
    hide Classify, Show, LineEnd;
    var i := LineEnd(s);
    if i == |s| {
      ShowClassified(s, isToml);
    } else {
      ShowClassified(s[..i], isToml);
      UnparseParsed(s[i + 1..], isToml);
      var t, below := Parse(s, isToml), Parse(s[i + 1..], isToml);
      assert t.lines[1..] == below.lines && t.tail == below.tail;
      SplitLine(s);
    }
  }

  predicate NoNewline(s: string) {
    forall i | 0 <= i < |s| :: s[i] != '\n'
  }

  /** A line that is read back as itself. */
  predicate Canonical(l: Line, isToml: Grammar) {
    NoNewline(Show(l)) && Classify(Show(l), isToml) == l
  }

  predicate CanonicalText(t: Text, isToml: Grammar) {
    Canonical(t.tail, isToml) && forall i | 0 <= i < |t.lines| :: Canonical(t.lines[i], isToml)
  }

  lemma LineEndIs(x: string, y: string)
    requires NoNewline(x)
    ensures LineEnd(x + ("\n" + y)) == |x| && LineEnd(x) == |x|
  {
    var s := x + ("\n" + y);
    assert s[|x|] == '\n';
    assert forall j | 0 <= j < |x| :: s[j] == x[j];
  }

  lemma TwoLines(x: string, y: string)
    ensures var s := x + ("\n" + y); s[..|x|] == x && s[|x| + 1..] == y
  {
  }

  lemma {:induction false} ParseUnparsed(t: Text, isToml: Grammar)
    requires CanonicalText(t, isToml)
    ensures Parse(Unparse(t), isToml) == t
    decreases |t.lines|
  {
    hide Classify, Show, LineEnd, Parse, Canonical;
    if t.lines == [] {
      LastIsParsed(t.tail, isToml);
    } else {
      var below := Text(t.lines[1..], t.tail);
      assert CanonicalText(below, isToml);
      ParseUnparsed(below, isToml);
      hide CanonicalText, Unparse;
      FirstIsParsed(t.lines[0], Unparse(below), isToml);
      UnparseFirst(t);
      assert [t.lines[0]] + t.lines[1..] == t.lines;
    }
  }

  lemma LastIsParsed(l: Line, isToml: Grammar)
    requires Canonical(l, isToml)
    ensures Parse(Show(l), isToml) == Text([], l)
  {
    hide Classify, Show, LineEnd;
    LineEndIs(Show(l), "");
  }

  lemma FirstIsParsed(l: Line, rest: string, isToml: Grammar)
    requires Canonical(l, isToml)
    ensures var below := Parse(rest, isToml);
      Parse(Show(l) + ("\n" + rest), isToml) == Text([l] + below.lines, below.tail)
  {
    hide Classify, Show, LineEnd;
    LineEndIs(Show(l), rest);
    TwoLines(Show(l), rest);
  }

  lemma UnparseFirst(t: Text)
    requires t.lines != []
    ensures Unparse(t) == Show(t.lines[0]) + ("\n" + Unparse(Text(t.lines[1..], t.tail)))
  {
  }

  lemma {:induction false} ParsedIsCanonical(s: string, isToml: Grammar)
    ensures CanonicalText(Parse(s, isToml), isToml)
    decreases |s|
  {
    hide Classify, Show;
    var i := LineEnd(s);
    ShowClassified(s[..i], isToml);
    assert Canonical(Classify(s[..i], isToml), isToml);
    hide LineEnd, Canonical;
    if i < |s| {
      ParsedIsCanonical(s[i + 1..], isToml);
    } else {
      assert s[..i] == s;
    }
  }
}
