/** The blank-line tidying loop and the rendering of a stack on strings, against their line-level
  * specifications: what the other modules prove on lines holds of the characters the program
  * handles, and a text stays one that reads back as itself.
  */
module HistoryTidy {
  import opened HistoryBlocks
  import opened HistoryLine
  import opened HistoryRuns
  import opened HistoryStack
  import opened HistoryText
  import opened Seqs

  // ----- Tidying

  /** What is left when no three newlines follow each other, `c` of them standing before `s`. */
  function SqueezeChars(s: string, c: nat): string
    requires c <= 2
  {
    if s == "" then ""
    else if s[0] != '\n' then [s[0]] + SqueezeChars(s[1..], 0)
    else if c == 2 then SqueezeChars(s[1..], 2)
    else "\n" + SqueezeChars(s[1..], c + 1)
  }

  predicate TripleAt(s: string, i: nat) {
    i + 3 <= |s| && s[i] == '\n' && s[i + 1] == '\n' && s[i + 2] == '\n'
  }

  ghost predicate HasTriple(s: string) {
    exists i: nat :: TripleAt(s, i)
  }

  /** `replace("\n\n\n", "\n\n")`: every match, left to right, none overlapping. */
  function ReplaceTriples(s: string): (r: string)
    ensures |r| <= |s|
    decreases |s|
  {
    if s == "" then ""
    else if TripleAt(s, 0) then "\n\n" + ReplaceTriples(s[3..])
    else [s[0]] + ReplaceTriples(s[1..])
  }

  lemma TwoNewlines(t: string, c: nat)
    requires c <= 2
    ensures SqueezeChars("\n\n" + t, c) == (if c == 0 then "\n\n" else if c == 1 then "\n" else "") + SqueezeChars(t, 2)
  {
    assert ("\n\n" + t)[1..] == "\n" + t && ("\n" + t)[1..] == t;
  }

  lemma {:induction false} ReplaceKeepsSqueezed(s: string, c: nat)
    requires c <= 2
    ensures SqueezeChars(ReplaceTriples(s), c) == SqueezeChars(s, c)
    decreases |s|
  {
    if s == "" {
    } else if TripleAt(s, 0) {
      var t := s[3..];
      assert s == "\n\n" + ("\n" + t);
      TwoNewlines("\n" + t, c);
      assert ("\n" + t)[1..] == t;
      TwoNewlines(ReplaceTriples(t), c);
      ReplaceKeepsSqueezed(t, 2);
    } else {
      ReplaceKeepsSqueezed(s[1..], if s[0] != '\n' then 0 else if c == 2 then 2 else c + 1);
      assert ([s[0]] + ReplaceTriples(s[1..]))[1..] == ReplaceTriples(s[1..]);
    }
  }

  lemma {:induction false} NothingToSqueeze(s: string, c: nat)
    requires c <= 2 && !HasTriple(s)
    requires c == 1 ==> !(|s| >= 2 && s[0] == '\n' && s[1] == '\n')
    requires c == 2 ==> !(s != "" && s[0] == '\n')
    ensures SqueezeChars(s, c) == s
  {
    if s != "" {
      assert !HasTriple(s[1..]) by {
        forall i: nat ensures !TripleAt(s[1..], i) {
          assert !TripleAt(s, i + 1);
        }
      }
      assert !TripleAt(s, 0);
      NothingToSqueeze(s[1..], if s[0] != '\n' then 0 else c + 1);
    }
  }

  lemma {:induction false} ReplaceShortens(s: string, i: nat)
    requires TripleAt(s, i)
    ensures |ReplaceTriples(s)| < |s|
    decreases |s|
  {
    if !TripleAt(s, 0) {
      assert TripleAt(s[1..], i - 1);
      ReplaceShortens(s[1..], i - 1);
    }
  }

  /** `contains("\n\n\n")`. */
  method ContainsTriple(s: string) returns (found: bool, ghost at: nat)
    ensures found ==> TripleAt(s, at)
    ensures !found ==> !HasTriple(s)
  {
    found, at := false, 0;
    for i := 0 to |s|
      invariant forall j: nat | j < i :: !TripleAt(s, j)
    {
      if TripleAt(s, i) {
        return true, i;
      }
    }
  }

  /** The loop at the end of excise_run. It ends, and drops exactly the blank lines that have two
    * newlines above them. */
  method TidyBlankLines(s: string) returns (out: string)
    ensures out == SqueezeChars(s, 0)
  {
    out := s;
    var found, at := ContainsTriple(out);
    while found
      invariant SqueezeChars(out, 0) == SqueezeChars(s, 0)
      invariant found ==> TripleAt(out, at)
      invariant !found ==> !HasTriple(out)
      decreases |out|
    {
      ReplaceShortens(out, at);
      ReplaceKeepsSqueezed(out, 0);
      out := ReplaceTriples(out);
      found, at := ContainsTriple(out);
    }
    NothingToSqueeze(out, 0);
  }

  lemma {:induction false} SqueezePastLine(x: string, y: string, c: nat)
    requires c <= 2 && NoNewline(x) && x != ""
    ensures SqueezeChars(x + y, c) == x + SqueezeChars(y, 0)
  {
    var s := x + y;
    assert s[0] == x[0] && s[1..] == x[1..] + y;
    if |x| > 1 {
      SqueezePastLine(x[1..], y, 0);
      assert x == [x[0]] + x[1..];
    } else {
      assert x[1..] + y == y;
    }
  }

  /** On the lines of a text the loop is the line-level tidying. */
  lemma {:induction false} SqueezeIsByLine(t: Text, c: nat, isToml: Grammar)
    requires c <= 2 && CanonicalText(t, isToml)
    ensures SqueezeChars(Unparse(t), c) == Unparse(Text(Squeezed(t.lines, c), t.tail))
    decreases |t.lines|
  {
    if t.lines == [] {
      assert Show(t.tail) + "" == Show(t.tail);
      if Show(t.tail) != "" {
        SqueezePastLine(Show(t.tail), "", c);
      }
    } else {
      var l, below := t.lines[0], Text(t.lines[1..], t.tail);
      var x, y := Show(l), Unparse(below);
      assert Canonical(l, isToml) && CanonicalText(below, isToml);
      assert l == Blank <==> x == "";
      hide Canonical, CanonicalText, Show;
      var n := if x != "" then 1 else if c == 2 then 2 else c + 1;
      SqueezeIsByLine(below, n, isToml);
      SqueezeOneLine(x, y, c);
      UnparseBelow(l, Squeezed(below.lines, n), t.tail);
    }
  }

  lemma SqueezeOneLine(x: string, y: string, c: nat)
    requires c <= 2 && NoNewline(x)
    ensures SqueezeChars(x + ("\n" + y), c) ==
            if x != "" then x + ("\n" + SqueezeChars(y, 1))
            else if c == 2 then SqueezeChars(y, 2)
            else "\n" + SqueezeChars(y, c + 1)
  {
    assert ("\n" + y)[1..] == y;
    if x == "" {
      assert x + ("\n" + y) == "\n" + y;
    } else {
      SqueezePastLine(x, "\n" + y, c);
    }
  }

  lemma UnparseBelow(l: Line, ls: seq<Line>, tail: Line)
    ensures Unparse(Text([l] + ls, tail)) == Show(l) + ("\n" + Unparse(Text(ls, tail)))
  {
    assert ([l] + ls)[1..] == ls;
  }

  /** Tidying a text character by character and reading it is reading it and tidying its lines. */
  lemma TidyThenParse(s: string, isToml: Grammar)
    ensures Parse(SqueezeChars(s, 0), isToml) == Tidied(Parse(s, isToml))
  {
    var t := Parse(s, isToml);
    UnparseParsed(s, isToml);
    ParsedIsCanonical(s, isToml);
    hide Parse, Unparse, Canonical;
    SqueezeIsByLine(t, 0, isToml);
    SqueezedStaysCanonical(t.lines, 0, isToml);
    ParseUnparsed(Tidied(t), isToml);
  }

  predicate AllCanonical(ls: seq<Line>, isToml: Grammar) {
    forall i | 0 <= i < |ls| :: Canonical(ls[i], isToml)
  }

  lemma {:induction false} SqueezedStaysCanonical(ls: seq<Line>, c: nat, isToml: Grammar)
    requires c <= 2 && AllCanonical(ls, isToml)
    ensures AllCanonical(Squeezed(ls, c), isToml)
  {
    hide Canonical;
    if ls != [] {
      var n := if ls[0] != Blank then 1 else if c == 2 then 2 else c + 1;
      var rest := Squeezed(ls[1..], n);
      SqueezedStaysCanonical(ls[1..], n, isToml);
      assert Squeezed(ls, c) == if ls[0] == Blank && c == 2 then rest else [ls[0]] + rest;
      hide Squeezed;
      assert AllCanonical([ls[0]] + rest, isToml);
    }
  }

  // ----- Rendering a stack

  function EntryText(stack: seq<WasEntry>): string {
    if stack == [] then "" else (Show(Was(stack[0])) + "\n") + EntryText(stack[1..])
  }

  /** render_stack_block on strings. */
  method RenderStackText(head: string, stack: seq<WasEntry>, indent: string) returns (out: string)
    ensures out == head + (if head != "" && head[|head| - 1] != '\n' then "\n" else "") + EntryText(stack) + indent
  {
    hide EntryText, Show;
    out := head;
    if out != "" && out[|out| - 1] != '\n' {
      out := out + "\n";
    } else {
      assert head + "" == head;
    }
    ghost var top := out;
    assert stack[0..] == stack;
    for i := 0 to |stack|
      invariant out + EntryText(stack[i..]) == top + EntryText(stack)
    {
      NextEntryText(stack, i);
      Assoc(out, Show(Was(stack[i])) + "\n", EntryText(stack[i + 1..]));
      out := out + (Show(Was(stack[i])) + "\n");
    }
    NoEntryText(stack[|stack|..]);
    assert out + "" == out;
    out := out + indent;
  }

  lemma NextEntryText(stack: seq<WasEntry>, i: nat)
    requires i < |stack|
    ensures EntryText(stack[i..]) == (Show(Was(stack[i])) + "\n") + EntryText(stack[i + 1..])
  {
    hide Show;
    assert stack[i..][1..] == stack[i + 1..];
  }

  lemma NoEntryText(stack: seq<WasEntry>)
    requires stack == []
    ensures EntryText(stack) == ""
  {
  }

  function LinesText(ls: seq<Line>): string {
    if ls == [] then "" else Show(ls[0]) + ("\n" + LinesText(ls[1..]))
  }

  lemma {:induction false} LinesTextConcat(a: seq<Line>, b: seq<Line>)
    ensures LinesText(a + b) == LinesText(a) + LinesText(b)
  {
    if a == [] {
      assert a + b == b;
    } else {
      assert (a + b)[1..] == a[1..] + b;
      LinesTextConcat(a[1..], b);
    }
  }

  lemma {:induction false} UnparseIs(t: Text)
    ensures Unparse(t) == LinesText(t.lines) + Show(t.tail)
    decreases |t.lines|
  {
    if t.lines != [] {
      UnparseIs(Text(t.lines[1..], t.tail));
    }
  }

  lemma {:induction false} EntryTextIs(stack: seq<WasEntry>)
    ensures EntryText(stack) == LinesText(WasLines(stack))
  {
    if stack != [] {
      var rest := stack[1..];
      EntryTextIs(rest);
      assert WasLines(stack) == [Was(stack[0])] + WasLines(rest);
    }
  }

  /** What the head is followed by before the stack: nothing when it is empty or ends in a newline. */
  function Ended(head: string): string {
    if head != "" && head[|head| - 1] != '\n' then head + "\n" else head
  }

  lemma {:induction false} LinesTextEnds(ls: seq<Line>)
    ensures LinesText(ls) == "" || LinesText(ls)[|LinesText(ls)| - 1] == '\n'
  {
    if ls != [] {
      LinesTextEnds(ls[1..]);
    }
  }

  lemma EndedIs(t: Text, isToml: Grammar)
    requires CanonicalText(t, isToml)
    ensures Ended(Unparse(t)) == LinesText(Terminated(t))
  {
    hide *;
    UnparseIs(t);
    LinesTextEnds(t.lines);
    TailOf(t, isToml);
    EndedConcat(LinesText(t.lines), Show(t.tail));
    LastLineText(t.lines, t.tail);
    TerminatedIs(t);
  }

  lemma TailOf(t: Text, isToml: Grammar)
    requires CanonicalText(t, isToml)
    ensures NoNewline(Show(t.tail)) && (t.tail == Blank <==> Show(t.tail) == "")
  {
  }

  lemma TerminatedIs(t: Text)
    ensures Terminated(t) == if t.tail == Blank then t.lines else t.lines + [t.tail]
  {
  }

  lemma EndedConcat(above: string, x: string)
    requires NoNewline(x) && (above == "" || above[|above| - 1] == '\n')
    ensures Ended(above + x) == if x == "" then above else above + x + "\n"
  {
    if x == "" {
      assert above + x == above;
    } else {
      assert (above + x)[|above + x| - 1] == x[|x| - 1];
    }
  }

  lemma LastLineText(ls: seq<Line>, l: Line)
    ensures LinesText(ls + [l]) == LinesText(ls) + Show(l) + "\n"
  {
    LinesTextConcat(ls, [l]);
    assert [l][1..] == [];
  }

  /** A stack rendered below a head that does not itself end in history is the stack split off
    * again, with the head's lines above it and the indent below it. */
  lemma RenderedIsSplitOff(head: string, stack: seq<WasEntry>, indent: string, isToml: Grammar)
    requires forall i | 0 <= i < |stack| :: Canonical(Was(stack[i]), isToml)
    requires AllSpace(indent) && NoNewline(indent) && !EndsInWas(Terminated(Parse(head, isToml)))
    ensures Split(Parse(Ended(head) + EntryText(stack) + indent, isToml)) ==
            Pieces(Text(Terminated(Parse(head, isToml)), Blank), stack, Classify(indent, isToml))
  {
    ParsedIsCanonical(head, isToml);
    var h, tail := Parse(head, isToml), Classify(indent, isToml);
    var t := Text(Terminated(h) + WasLines(stack), tail);
    RenderedText(head, stack, indent, isToml);
    RenderedIsCanonical(h, stack, indent, isToml);
    IndentIsWhite(indent, isToml);
    hide *;
    ParseUnparsed(t, isToml);
    SplitAfterRender(Terminated(h), stack, tail);
  }

  lemma RenderedText(head: string, stack: seq<WasEntry>, indent: string, isToml: Grammar)
    ensures var h := Parse(head, isToml);
      Unparse(Text(Terminated(h) + WasLines(stack), Classify(indent, isToml))) == Ended(head) + EntryText(stack) + indent
  {
    var h, tail := Parse(head, isToml), Classify(indent, isToml);
    hide *;
    UnparseParsed(head, isToml);
    ParsedIsCanonical(head, isToml);
    EndedIs(h, isToml);
    ShowClassified(indent, isToml);
    EntryTextIs(stack);
    LinesTextConcat(Terminated(h), WasLines(stack));
    UnparseIs(Text(Terminated(h) + WasLines(stack), tail));
  }

  lemma RenderedIsCanonical(h: Text, stack: seq<WasEntry>, indent: string, isToml: Grammar)
    requires CanonicalText(h, isToml) && forall i | 0 <= i < |stack| :: Canonical(Was(stack[i]), isToml)
    requires NoNewline(indent)
    ensures CanonicalText(Text(Terminated(h) + WasLines(stack), Classify(indent, isToml)), isToml)
  {
    ShowClassified(indent, isToml);
    hide Classify, Show, WasLines;
    var ls := Terminated(h) + WasLines(stack);
    forall i | 0 <= i < |ls| ensures Canonical(ls[i], isToml) {
      if i >= |Terminated(h)| {
        assert ls[i] == Was(stack[i - |Terminated(h)|]);
      }
    }
  }

  lemma Begins(s: string, p: string)
    ensures StartsWith(s, p) && p != "" ==> s != "" && s[0] == p[0]
  {
  }

  lemma IndentIsWhite(indent: string, isToml: Grammar)
    requires AllSpace(indent)
    ensures IsWhite(Classify(indent, isToml))
  {
    Begins(indent, WAS_PREFIX);
    Begins(indent, UNSET_PREFIX);
  }
}
