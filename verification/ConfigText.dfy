/** Texts whose lines are read back as themselves, and that every edit of a comment text keeps them so.
  *
  * An entry is read back exactly when its value is TOML on one line and its stamp is a plausible one, a
  * tag when its flag is not empty and has no white space. The edits only move, drop and add whole lines:
  * entries, tags and blank lines. So a text put together from lines that are read back is read back.
  */
module ConfigText {
  import opened ConfigRun
  import opened ConfigSection
  import opened HistoryBlocks
  import opened HistoryHolders
  import opened HistoryLine
  import opened HistoryRuns
  import opened HistoryStack
  import opened HistoryText
  import opened HistoryTidy
  import opened TaggedRuns
  import opened Timestamps
  import opened Wrappers

  // ----- Single lines

  /** What may be banked: a value that renders on one line is TOML. */
  predicate Bankable(value: string, isToml: Grammar) {
    SingleLine(value) ==> isToml(value)
  }

  /** A flag a tag can name. */
  predicate PlainFlag(flag: string) {
    flag != "" && NoSpace(flag)
  }

  lemma StampHasNoNewline(ts: string)
    requires ValidTimestamp(ts)
    ensures NoNewline(ts)
  {
    forall i | 0 <= i < |ts| ensures ts[i] != '\n' {
      if 0 <= i < 4 { assert ts[i] == ts[0..4][i]; }
      if 5 <= i < 7 { assert ts[i] == ts[5..7][i - 5]; }
      if 8 <= i < 10 { assert ts[i] == ts[8..10][i - 8]; }
      if 11 <= i < 13 { assert ts[i] == ts[11..13][i - 11]; }
      if 14 <= i < 16 { assert ts[i] == ts[14..16][i - 14]; }
      if 17 <= i < 19 { assert ts[i] == ts[17..19][i - 17]; }
    }
  }

  lemma NoNewlineConcat(a: string, b: string)
    ensures NoNewline(a + b) <==> NoNewline(a) && NoNewline(b)
  {
    if NoNewline(a + b) {
      assert forall i | 0 <= i < |a| :: a[i] == (a + b)[i];
      assert forall i | 0 <= i < |b| :: b[i] == (a + b)[|a| + i];
    }
  }

  lemma PrefixesHaveNoNewline()
    ensures NoNewline(WAS_PREFIX) && NoNewline(AT) && NoNewline(UNSET_PREFIX)
  {
  }

  lemma ShownEntryHasNoNewline(e: WasEntry)
    ensures NoNewline(Show(Was(e))) <==> NoNewline(e.value) && NoNewline(e.timestamp)
  {
    PrefixesHaveNoNewline();
    hide NoNewline;
    NoNewlineConcat(AT, e.timestamp);
    NoNewlineConcat(e.value, AT + e.timestamp);
    NoNewlineConcat(WAS_PREFIX, e.value + (AT + e.timestamp));
  }

  lemma SingleLineIs(value: string)
    ensures SingleLine(value) <==> NoNewline(value)
  {
  }

  /** Exactly which entries the next command reads back. */
  lemma EntryReadsBack(e: WasEntry, isToml: Grammar)
    ensures Canonical(Was(e), isToml) <==> SingleLine(e.value) && isToml(e.value) && ValidTimestamp(e.timestamp)
  {
    hide ValidTimestamp, Show, NoNewline, SingleLine, ParseWas;
    ShownEntryHasNoNewline(e);
    SingleLineIs(e.value);
    ParseWasIsShow(Show(Was(e)), e, isToml);
    if ValidTimestamp(e.timestamp) {
      StampHasNoNewline(e.timestamp);
    }
  }

  /** An entry banked at a given second is read back if and only if that is before the year 10000. */
  lemma BankedReadsBack(value: string, secs: nat, isToml: Grammar)
    requires SingleLine(value) && isToml(value)
    ensures Canonical(Was(WasEntry(value, FormatTimestamp(secs))), isToml) <==> secs < YEAR_10000
  {
    hide *;
    EntryReadsBack(WasEntry(value, FormatTimestamp(secs)), isToml);
    StampsAreValid(secs);
  }

  lemma TagIsNoEntry(flag: string, isToml: Grammar)
    ensures ParseWas(UNSET_PREFIX + flag, isToml) == None
  {
    assert (UNSET_PREFIX + flag)[2] == 'u' && WAS_PREFIX[2] == 'w';
  }

  lemma NoSpaceNoNewline(s: string)
    requires NoSpace(s)
    ensures NoNewline(s)
  {
    forall i | 0 <= i < |s| ensures s[i] != '\n' {
      assert !IsAsciiSpace(s[i]);
    }
  }

  lemma TagReadsBack(flag: string, isToml: Grammar)
    requires PlainFlag(flag)
    ensures Canonical(Tag(flag), isToml)
  {
    NoSpaceNoNewline(flag);
    PrefixesHaveNoNewline();
    hide NoNewline, NoSpace, ParseWas, ParseTag;
    NoNewlineConcat(UNSET_PREFIX, flag);
    TagIsNoEntry(flag, isToml);
    ParseTagIsShow(UNSET_PREFIX + flag, flag);
  }

  lemma BlankReadsBack(isToml: Grammar)
    ensures Canonical(Blank, isToml)
  {
  }

  // ----- Texts put together from clean ones

  predicate CleanStack(stack: seq<WasEntry>, isToml: Grammar) {
    forall i | 0 <= i < |stack| :: Canonical(Was(stack[i]), isToml)
  }

  lemma CleanLines(t: Text, isToml: Grammar)
    ensures CanonicalText(t, isToml) <==> AllCanonical(AllLines(t), isToml)
  {
    hide Canonical;
    var ls := AllLines(t);
    if AllCanonical(ls, isToml) {
      assert ls[|t.lines|] == t.tail;
      assert forall i | 0 <= i < |t.lines| :: t.lines[i] == ls[i];
    }
  }

  lemma CleanConcat(a: seq<Line>, b: seq<Line>, isToml: Grammar)
    ensures AllCanonical(a + b, isToml) <==> AllCanonical(a, isToml) && AllCanonical(b, isToml)
  {
    hide Canonical;
    if AllCanonical(a + b, isToml) {
      assert forall i | 0 <= i < |a| :: a[i] == (a + b)[i];
      assert forall i | 0 <= i < |b| :: b[i] == (a + b)[|a| + i];
    }
  }

  lemma CleanSlice(ls: seq<Line>, i: nat, j: nat, isToml: Grammar)
    requires AllCanonical(ls, isToml) && i <= j <= |ls|
    ensures AllCanonical(ls[i..j], isToml) && AllCanonical(ls[i..], isToml) && AllCanonical(ls[..j], isToml)
  {
    hide Canonical;
  }

  lemma CleanWasLines(stack: seq<WasEntry>, isToml: Grammar)
    ensures AllCanonical(WasLines(stack), isToml) <==> CleanStack(stack, isToml)
  {
    hide Canonical;
    if AllCanonical(WasLines(stack), isToml) {
      assert forall i | 0 <= i < |stack| :: WasLines(stack)[i] == Was(stack[i]);
    }
  }

  lemma CleanEntries(ls: seq<Line>, isToml: Grammar)
    requires AllWas(ls) && AllCanonical(ls, isToml)
    ensures CleanStack(Entries(ls), isToml)
  {
    hide Canonical;
    assert forall i | 0 <= i < |ls| :: ls[i] == Was(Entries(ls)[i]);
  }

  lemma CleanCons(e: WasEntry, stack: seq<WasEntry>, isToml: Grammar)
    requires Canonical(Was(e), isToml) && CleanStack(stack, isToml)
    ensures CleanStack([e] + stack, isToml) && CleanStack(Capped([e] + stack), isToml)
  {
    hide Canonical;
  }

  lemma CleanWithout(stack: seq<WasEntry>, k: nat, isToml: Grammar)
    requires CleanStack(stack, isToml) && k < |stack|
    ensures CleanStack(Without(stack, k), isToml)
  {
    hide Canonical;
  }

  lemma CleanSplit(t: Text, isToml: Grammar)
    requires CanonicalText(t, isToml)
    ensures var p := Split(t);
      CanonicalText(p.head, isToml) && CleanStack(p.stack, isToml) && Canonical(p.indent, isToml)
  {
    hide Canonical, StackLen, Entries;
    var body := if IsWhite(t.tail) then t.lines else AllLines(t);
    var cut := |body| - StackLen(body);
    CleanLines(t, isToml);
    BlankReadsBack(isToml);
    CleanSlice(body, cut, |body|, isToml);
    CleanSlice(body, 0, cut, isToml);
    CleanEntries(body[cut..], isToml);
  }

  lemma CleanTerminated(t: Text, isToml: Grammar)
    requires CanonicalText(t, isToml)
    ensures AllCanonical(Terminated(t), isToml)
  {
    hide Canonical;
    CleanLines(t, isToml);
  }

  lemma CleanRender(head: Text, stack: seq<WasEntry>, indent: Line, isToml: Grammar)
    requires CanonicalText(head, isToml) && CleanStack(stack, isToml) && Canonical(indent, isToml)
    ensures CanonicalText(RenderStackBlock(head, stack, indent), isToml)
  {
    hide Canonical, WasLines, Terminated, CleanStack;
    CleanTerminated(head, isToml);
    CleanWasLines(stack, isToml);
    CleanConcat(Terminated(head), WasLines(stack), isToml);
  }

  lemma CleanOrphan(head: Text, flag: string, stack: seq<WasEntry>, isToml: Grammar)
    requires CanonicalText(head, isToml) && CleanStack(stack, isToml) && PlainFlag(flag)
    ensures CanonicalText(RenderOrphanBlock(head, flag, stack), isToml)
  {
    hide Canonical, WasLines, Terminated, CleanStack;
    TagReadsBack(flag, isToml);
    BlankReadsBack(isToml);
    CleanTerminated(head, isToml);
    CleanWasLines(stack, isToml);
    CleanConcat(Terminated(head), [Tag(flag)], isToml);
    CleanConcat(Terminated(head) + [Tag(flag)], WasLines(stack), isToml);
  }

  // ----- Attaching and cutting

  lemma {:induction false} CleanTrimEnd(t: Text, isToml: Grammar)
    requires CanonicalText(t, isToml)
    ensures CanonicalText(TrimEnd(t), isToml) && AllCanonical(AllLines(TrimEnd(t)), isToml)
    decreases |t.lines|
  {
    hide Canonical;
    if t.tail == Blank && t.lines != [] {
      CleanTrimEnd(Text(t.lines[..|t.lines| - 1], t.lines[|t.lines| - 1]), isToml);
    }
    hide TrimEnd;
    CleanLines(TrimEnd(t), isToml);
  }

  lemma {:induction false} CleanDropBlanks(ls: seq<Line>, isToml: Grammar)
    requires AllCanonical(ls, isToml)
    ensures AllCanonical(DropBlanks(ls), isToml)
  {
    hide Canonical;
    if ls != [] && ls[0] == Blank {
      CleanDropBlanks(ls[1..], isToml);
    }
  }

  lemma CleanAttachAbove(block: Text, prefix: Text, isToml: Grammar)
    requires CanonicalText(block, isToml) && CanonicalText(prefix, isToml)
    ensures CanonicalText(AttachAbove(block, prefix), isToml)
  {
    hide Canonical, TrimEnd, DropBlanks, AllLines;
    var b, rest := AllLines(TrimEnd(block)), DropBlanks(prefix.lines);
    CleanTrimEnd(block, isToml);
    BlankReadsBack(isToml);
    CleanDropBlanks(prefix.lines, isToml);
    CleanConcat(b, [Blank], isToml);
    CleanConcat(b + [Blank], rest, isToml);
  }

  lemma CleanAttachTail(text: Text, block: Text, inHeader: bool, isToml: Grammar)
    requires CanonicalText(text, isToml) && CanonicalText(block, isToml)
    ensures CanonicalText(AttachTail(text, block, inHeader), isToml)
  {
    hide Canonical, TrimEnd, AllLines;
    var trimmed, b := TrimEnd(text), AllLines(TrimEnd(block));
    CleanTrimEnd(block, isToml);
    CleanTrimEnd(text, isToml);
    BlankReadsBack(isToml);
    CleanConcat(AllLines(trimmed), [Blank], isToml);
    CleanConcat(AllLines(trimmed) + [Blank], b, isToml);
    CleanConcat(text.lines, b, isToml);
    var t := AppendBlock(text, block);
    CleanConcat(t.lines, [Blank], isToml);
  }

  lemma CleanExcised(t: Text, k: nat, isToml: Grammar)
    requires CanonicalText(t, isToml) && k < |Runs(AllLines(t))|
    ensures CanonicalText(Excised(t, k), isToml) && AllCanonical(ExcisedBlock(t, k), isToml)
  {
    hide Canonical, Runs, AllLines, Squeezed;
    var ls, r := AllLines(t), RunAt(AllLines(t), k);
    var range, cut := BlockRange(ls, r), CutAt(ls, r);
    CleanLines(t, isToml);
    CleanSlice(ls, range.start, r.end, isToml);
    CleanSlice(ls, range.end, |ls|, isToml);
    CleanSlice(ls, 0, range.start, isToml);
    BlankReadsBack(isToml);
    CleanConcat(cut.above, cut.below, isToml);
    var rest := FromLines(cut.above + cut.below);
    CleanSlice(cut.above + cut.below, 0, |cut.above + cut.below| - 1, isToml);
    SqueezedStaysCanonical(rest.lines, 0, isToml);
  }

  lemma {:induction false} CleanWithoutTag(block: seq<Line>, flag: string, isToml: Grammar)
    requires AllCanonical(block, isToml)
    ensures AllCanonical(WithoutTag(block, flag), isToml)
  {
    hide Canonical;
    if block != [] {
      CleanWithoutTag(block[1..], flag, isToml);
    }
  }

  // ----- Blocks

  predicate CleanBlocks(bs: seq<Block>, isToml: Grammar) {
    forall i | 0 <= i < |bs| :: CleanStack(bs[i].entries, isToml)
  }

  lemma {:induction false} BlocksAreClean(ls: seq<Line>, prev: Line, isToml: Grammar)
    requires AllCanonical(ls, isToml)
    ensures CleanBlocks(Blocks(ls, prev), isToml)
  {
    hide Canonical;
    if ls != [] {
      BlocksAreClean(Init(ls), prev, isToml);
    }
  }
}
