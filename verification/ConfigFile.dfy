/** The commands on the file itself, which each of them reads anew and writes back.
  *
  * A file is the characters above each key and at the end of each section. Every command leaves them
  * such that the lines written are the lines read, so a run of commands on the file is a run on one
  * document, and what is proved of such runs holds of the file. The values are the TOML library's
  * concern: they come back as they were stored.
  */
module ConfigFile {
  import opened ConfigRefinement
  import opened ConfigRun
  import opened ConfigSection
  import opened ConfigText
  import opened HistoryBlocks
  import opened HistoryHolders
  import opened HistoryLine
  import opened HistoryRuns
  import opened HistoryStack
  import opened HistoryText
  import opened HistoryTidy
  import opened TaggedRuns
  import opened Timestamps
  import opened Wrappers

  // ----- Clean sections

  predicate CleanKey(k: KeyItem, isToml: Grammar) {
    CanonicalText(k.prefix, isToml) && Bankable(k.value, isToml)
  }

  predicate CleanKeys(keys: seq<KeyItem>, isToml: Grammar) {
    forall i | 0 <= i < |keys| :: CleanKey(keys[i], isToml)
  }

  /** Every prefix and the tail are read back as they are, and every value can be banked. */
  predicate Clean(s: Section, isToml: Grammar) {
    CleanKeys(s.keys, isToml) && CanonicalText(s.tail, isToml)
  }

  /** The registry's flags can be named by a tag. */
  ghost predicate PlainFlags(r: Rules) {
    forall flag | r.managed(flag) :: PlainFlag(flag)
  }

  lemma CleanWhenReplaced(keys: seq<KeyItem>, i: nat, k: KeyItem, isToml: Grammar)
    requires CleanKeys(keys, isToml) && i < |keys| && CleanKey(k, isToml)
    ensures CleanKeys(keys[i := k], isToml)
  {
    hide CleanKey;
  }

  lemma CleanWhenAdded(keys: seq<KeyItem>, k: KeyItem, isToml: Grammar)
    requires CleanKeys(keys, isToml) && CleanKey(k, isToml)
    ensures CleanKeys(keys + [k], isToml)
  {
    hide CleanKey;
  }

  lemma CleanWhenRemoved(keys: seq<KeyItem>, i: nat, isToml: Grammar)
    requires CleanKeys(keys, isToml) && i < |keys|
    ensures CleanKeys(keys[..i] + keys[i + 1..], isToml)
  {
    hide CleanKey;
  }

  lemma EmptyIsClean(isToml: Grammar)
    ensures CanonicalText(EMPTY, isToml)
  {
    BlankReadsBack(isToml);
  }

  lemma OrphansAreClean(k: KeyItem, managed: bool, isToml: Grammar)
    requires CleanKey(k, isToml)
    ensures CleanBlocks(OrphansOf(k, managed), isToml)
  {
    hide CleanBlocks, Canonical, Split, Blocks;
    CleanSplit(k.prefix, isToml);
    CleanLines(k.prefix, isToml);
    BlocksAreClean(Split(k.prefix).head.lines, Blank, isToml);
    BlocksAreClean(AllLines(k.prefix), Blank, isToml);
  }

  lemma PlacesAreClean(s: Section, r: Rules, p: Place, isToml: Grammar)
    requires Clean(s, isToml) && IsPlace(s, r, p)
    ensures CleanStack(BlockIn(s, r, p).entries, isToml)
  {
    hide CleanStack, CleanKey, OrphansOf, CanonicalText, Blocks;
    match p
    case InKey(i, k) => OrphansAreClean(s.keys[i], r.managed(s.keys[i].flag), isToml);
    case InTail(k) =>
      CleanLines(s.tail, isToml);
      BlocksAreClean(AllLines(s.tail), Blank, isToml);
  }

  lemma StackIsClean(s: Section, r: Rules, flag: string, isToml: Grammar)
    requires Clean(s, isToml)
    ensures CleanStack(KeyStack(s, r, flag), isToml)
  {
    hide CleanStack, Canonical, Split, FindOrphan, BlockIn, IsPlace;
    if HasKey(s.keys, flag) {
      assert CleanKey(s.keys[IndexOf(s.keys, flag)], isToml);
      CleanSplit(s.keys[IndexOf(s.keys, flag)].prefix, isToml);
    } else if FindOrphan(s, r, flag).Some? {
      PlacesAreClean(s, r, FindOrphan(s, r, flag).value, isToml);
    } else {
      NothingIsClean(isToml);
    }
  }

  lemma NothingIsClean(isToml: Grammar)
    ensures CleanStack([], isToml)
  {
  }

  lemma HolderIsClean(s: Section, p: Place, t: Text, isToml: Grammar)
    requires Clean(s, isToml) && (p.InKey? ==> p.i < |s.keys|)
    ensures CanonicalText(HolderText(s, p), isToml)
    ensures CanonicalText(t, isToml) ==> Clean(WithHolder(s, p, t), isToml)
  {
    hide CanonicalText, Bankable;
    if p.InKey? {
      assert CleanKey(s.keys[p.i], isToml);
    }
  }

  lemma AdoptionIsClean(s: Section, r: Rules, flag: string, isToml: Grammar)
    requires Clean(s, isToml)
    ensures var a := Adopt(s, r, flag);
      Clean(a.section, isToml) && (a.prefix.Some? ==> CanonicalText(a.prefix.value, isToml))
  {
    hide Clean, CanonicalText, FindOrphan, Excised, ExcisedBlock, Runs, AllLines, WithoutTag, HolderText, WithHolder;
    var found := FindOrphan(s, r, flag);
    if found.Some? {
      var p := found.value;
      PlaceIsThere(s, r, p);
      var t := HolderText(s, p);
      if p.k < |Runs(AllLines(t))| {
        HolderIsClean(s, p, t, isToml);
        CleanExcised(t, p.k, isToml);
        HolderIsClean(s, p, Excised(t, p.k), isToml);
        CleanWithoutTag(ExcisedBlock(t, p.k), flag, isToml);
        LinesAreClean(WithoutTag(ExcisedBlock(t, p.k), flag), isToml);
      }
    }
  }

  lemma PlaceIsThere(s: Section, r: Rules, p: Place)
    requires IsPlace(s, r, p)
    ensures p.InKey? ==> p.i < |s.keys|
  {
  }

  lemma LinesAreClean(ls: seq<Line>, isToml: Grammar)
    requires AllCanonical(ls, isToml)
    ensures CanonicalText(Text(ls, Blank), isToml)
  {
    BlankReadsBack(isToml);
  }

  // ----- Commands keep sections clean

  /** A command whose stamp is one, whose value can be banked. */
  predicate Readable(op: Op, isToml: Grammar) {
    ValidTimestamp(op.now) && (op.SetOp? ==> Bankable(op.value, isToml))
  }

  lemma PushIsClean(prefix: Text, e: WasEntry, isToml: Grammar)
    requires CanonicalText(prefix, isToml) && Canonical(Was(e), isToml)
    ensures CanonicalText(PushStack(prefix, e), isToml)
  {
    hide CanonicalText, Canonical, Split, RenderStackBlock, CleanStack, Capped;
    var p := Split(prefix);
    CleanSplit(prefix, isToml);
    CleanCons(e, p.stack, isToml);
    CleanRender(p.head, Capped([e] + p.stack), p.indent, isToml);
  }

  lemma BankedIsClean(value: string, now: string, isToml: Grammar)
    requires Bankable(value, isToml) && SingleLine(value) && ValidTimestamp(now)
    ensures Canonical(Was(WasEntry(value, now)), isToml)
  {
    hide ValidTimestamp, SingleLine, Canonical;
    EntryReadsBack(WasEntry(value, now), isToml);
  }

  lemma SetIsClean(s: Section, r: Rules, flag: string, value: string, now: string, isToml: Grammar)
    requires Clean(s, isToml) && ValidTimestamp(now) && Bankable(value, isToml)
    ensures Clean(SetKey(s, r, flag, value, now), isToml)
  {
    hide CanonicalText, Canonical, Adopt, PushStack, ValidTimestamp, SingleLine, CleanKeys, Bankable, IndexOf;
    if HasKey(s.keys, flag) {
      var i := IndexOf(s.keys, flag);
      KeyIsClean(s.keys, i, isToml);
      var k := s.keys[i];
      if SingleLine(k.value) {
        BankedIsClean(k.value, now, isToml);
        PushIsClean(k.prefix, WasEntry(k.value, now), isToml);
      }
      var prefix := if SingleLine(k.value) then PushStack(k.prefix, WasEntry(k.value, now)) else k.prefix;
      CleanWhenReplaced(s.keys, i, KeyItem(flag, prefix, value), isToml);
    } else {
      var a := Adopt(s, r, flag);
      AdoptionIsClean(s, r, flag, isToml);
      EmptyIsClean(isToml);
      CleanWhenAdded(a.section.keys, KeyItem(flag, if a.prefix.Some? then a.prefix.value else EMPTY, value), isToml);
    }
  }

  lemma KeyIsClean(keys: seq<KeyItem>, i: nat, isToml: Grammar)
    requires CleanKeys(keys, isToml) && i < |keys|
    ensures CleanKey(keys[i], isToml)
  {
  }

  lemma LeftBehindIsClean(k: KeyItem, managed: bool, now: string, isToml: Grammar)
    requires CleanKey(k, isToml) && ValidTimestamp(now) && (managed ==> PlainFlag(k.flag))
    ensures CanonicalText(LeftBehind(k, managed, now), isToml)
  {
    hide Canonical, Split, RenderOrphanBlock, CleanStack, Capped, ValidTimestamp, SingleLine, PlainFlag, Bankable;
    var bare := Unindented(k.prefix);
    BlankReadsBack(isToml);
    assert CanonicalText(bare, isToml);
    hide CanonicalText, Unindented;
    if managed && SingleLine(k.value) {
      var p := Split(bare);
      BankedIsClean(k.value, now, isToml);
      CleanSplit(bare, isToml);
      CleanCons(WasEntry(k.value, now), p.stack, isToml);
      CleanOrphan(p.head, k.flag, Capped([WasEntry(k.value, now)] + p.stack), isToml);
    }
  }

  lemma AttachIsClean(s: Section, i: nat, block: Text, inHeader: bool, isToml: Grammar)
    requires Clean(s, isToml) && CanonicalText(block, isToml)
    ensures Clean(AttachBlock(s, i, block, inHeader), isToml)
  {
    hide CanonicalText, CleanKeys, AttachAbove, AttachTail;
    if i < |s.keys| {
      KeyIsClean(s.keys, i, isToml);
      var k := s.keys[i];
      CleanAttachAbove(block, k.prefix, isToml);
      CleanWhenReplaced(s.keys, i, k.(prefix := AttachAbove(block, k.prefix)), isToml);
    } else {
      CleanAttachTail(s.tail, block, inHeader, isToml);
    }
  }

  lemma UnsetIsClean(s: Section, r: Rules, flag: string, now: string, inHeader: bool, isToml: Grammar)
    requires Clean(s, isToml) && ValidTimestamp(now) && PlainFlags(r)
    ensures Clean(UnsetKey(s, r, flag, now, inHeader), isToml)
  {
    hide CanonicalText, CleanKeys, LeftBehind, AttachBlock, ValidTimestamp, PlainFlag;
    if HasKey(s.keys, flag) {
      var i := IndexOf(s.keys, flag);
      hide IndexOf, HasKey;
      KeyIsClean(s.keys, i, isToml);
      LeftBehindIsClean(s.keys[i], r.managed(flag), now, isToml);
      CleanWhenRemoved(s.keys, i, isToml);
      var without := s.(keys := s.keys[..i] + s.keys[i + 1..]);
      AttachIsClean(without, i, LeftBehind(s.keys[i], r.managed(flag), now), inHeader, isToml);
    }
  }

  lemma EntryIsClean(stack: seq<WasEntry>, i: nat, isToml: Grammar)
    requires CleanStack(stack, isToml) && i < |stack|
    ensures Bankable(stack[i].value, isToml)
  {
    hide Canonical;
    EntryReadsBack(stack[i], isToml);
  }

  lemma RenderedKeyIsClean(flag: string, prefix: Text, stack: seq<WasEntry>, value: string, isToml: Grammar)
    requires CanonicalText(prefix, isToml) && CleanStack(stack, isToml) && Bankable(value, isToml)
    ensures var p := Split(prefix); CleanKey(KeyItem(flag, RenderStackBlock(p.head, stack, p.indent), value), isToml)
  {
    hide CanonicalText, Canonical, Split, RenderStackBlock, CleanStack;
    var p := Split(prefix);
    CleanSplit(prefix, isToml);
    CleanRender(p.head, stack, p.indent, isToml);
  }

  lemma RevertIsClean(s: Section, r: Rules, flag: string, to: Option<string>, now: string, isToml: Grammar)
    requires Clean(s, isToml) && ValidTimestamp(now)
    ensures Clean(RevertKey(s, r, flag, to, now), isToml)
  {
    hide CanonicalText, CleanKeys, Canonical, Split, RenderStackBlock, CleanStack, Adopt, KeyStack, ValidTimestamp,
         SingleLine, Capped, Without, Chosen, IndexOf, Bankable, CleanKey;
    var stack := KeyStack(s, r, flag);
    var c := Chosen(stack, to);
    StackIsClean(s, r, flag, isToml);
    if c < |stack| {
      CleanWithout(stack, c, isToml);
      EntryIsClean(stack, c, isToml);
      if HasKey(s.keys, flag) {
        var j := IndexOf(s.keys, flag);
        RestIsClean(s.keys, j, Without(stack, c), now, isToml);
        var k := s.keys[j];
        var rest := if SingleLine(k.value) then Capped([WasEntry(k.value, now)] + Without(stack, c)) else Without(stack, c);
        RenderedKeyIsClean(flag, k.prefix, rest, stack[c].value, isToml);
        var p := Split(k.prefix);
        CleanWhenReplaced(s.keys, j, KeyItem(flag, RenderStackBlock(p.head, rest, p.indent), stack[c].value), isToml);
      } else {
        var a := Adopt(s, r, flag);
        AdoptionIsClean(s, r, flag, isToml);
        EmptyIsClean(isToml);
        var prefix := if a.prefix.Some? then a.prefix.value else EMPTY;
        RenderedKeyIsClean(flag, prefix, Without(stack, c), stack[c].value, isToml);
        var p := Split(prefix);
        CleanWhenAdded(a.section.keys, KeyItem(flag, RenderStackBlock(p.head, Without(stack, c), p.indent), stack[c].value), isToml);
      }
    }
  }

  lemma RestIsClean(keys: seq<KeyItem>, j: nat, stack: seq<WasEntry>, now: string, isToml: Grammar)
    requires CleanKeys(keys, isToml) && j < |keys| && CleanStack(stack, isToml) && ValidTimestamp(now)
    ensures CanonicalText(keys[j].prefix, isToml)
    ensures SingleLine(keys[j].value) ==> CleanStack(Capped([WasEntry(keys[j].value, now)] + stack), isToml)
  {
    hide CanonicalText, Canonical, ValidTimestamp, SingleLine, CleanStack, Bankable, Capped;
    KeyIsClean(keys, j, isToml);
    if SingleLine(keys[j].value) {
      BankedIsClean(keys[j].value, now, isToml);
      CleanCons(WasEntry(keys[j].value, now), stack, isToml);
    }
  }

  // ----- Clean documents

  predicate CleanDoc(doc: seq<Named>, isToml: Grammar) {
    forall i | 0 <= i < |doc| :: Clean(doc[i].section, isToml)
  }

  ghost predicate PlainRegistry(g: Registry) {
    forall section :: PlainFlags(g(section))
  }

  lemma OpenedIsClean(doc: seq<Named>, g: Registry, op: Op, isToml: Grammar)
    requires CleanDoc(doc, isToml)
    ensures CleanDoc(Opened(doc, g, op), isToml)
  {
    BlankReadsBack(isToml);
    hide Canonical, CleanKeys, Position;
    var blank := Text([Blank], Blank);
    assert CanonicalText(blank, isToml) && CanonicalText(EMPTY, isToml);
    hide CanonicalText;
    NoKeysAreClean(isToml);
  }

  lemma NoKeysAreClean(isToml: Grammar)
    ensures CleanKeys([], isToml)
  {
  }

  /** Every command leaves every prefix and every tail one that is read back as it was written. */
  lemma ApplyIsClean(doc: seq<Named>, g: Registry, op: Op, isToml: Grammar)
    requires CleanDoc(doc, isToml) && PlainRegistry(g) && Readable(op, isToml)
    ensures CleanDoc(Apply(doc, g, op), isToml)
  {
    hide Clean, Opened, SetKey, UnsetKey, RevertKey, PlainFlags, Bankable, ValidTimestamp;
    OpenedIsClean(doc, g, op, isToml);
    var ready := Opened(doc, g, op);
    var i := Position(ready, op.section);
    if i < |ready| {
      var s, r := ready[i].section, g(op.section);
      match op
      case SetOp(_, flag, value, now) => SetIsClean(s, r, flag, value, now, isToml);
      case UnsetOp(_, flag, now) => UnsetIsClean(s, r, flag, now, i + 1 < |ready|, isToml);
      case RevertOp(_, flag, to, now) => RevertIsClean(s, r, flag, to, now, isToml);
    }
  }

  // ----- The file

  /** A key of the file: the characters above it, its flag and its value. */
  datatype FileKey = FileKey(flag: string, prefix: string, value: string)

  /** `tail` is the characters up to the next section's header, or to the end of the file. */
  datatype FileSection = FileSection(name: string, keys: seq<FileKey>, tail: string)

  function ReadKey(k: FileKey, isToml: Grammar): KeyItem {
    KeyItem(k.flag, Parse(k.prefix, isToml), k.value)
  }

  function ReadSection(s: FileSection, isToml: Grammar): Named {
    Named(s.name, Section(seq(|s.keys|, i requires 0 <= i < |s.keys| => ReadKey(s.keys[i], isToml)), Parse(s.tail, isToml)))
  }

  /** read_doc. */
  function ReadFile(file: seq<FileSection>, isToml: Grammar): seq<Named> {
    seq(|file|, i requires 0 <= i < |file| => ReadSection(file[i], isToml))
  }

  function WriteKey(k: KeyItem): FileKey {
    FileKey(k.flag, Unparse(k.prefix), k.value)
  }

  function WriteSection(n: Named): FileSection {
    FileSection(n.name, seq(|n.section.keys|, i requires 0 <= i < |n.section.keys| => WriteKey(n.section.keys[i])), Unparse(n.section.tail))
  }

  function WriteFile(doc: seq<Named>): seq<FileSection> {
    seq(|doc|, i requires 0 <= i < |doc| => WriteSection(doc[i]))
  }

  /** One command: the file is read, edited and written. */
  function Command(file: seq<FileSection>, g: Registry, op: Op, isToml: Grammar): seq<FileSection> {
    WriteFile(Apply(ReadFile(file, isToml), g, op))
  }

  function Commands(file: seq<FileSection>, g: Registry, ops: seq<Op>, isToml: Grammar): seq<FileSection>
    decreases |ops|
  {
    if ops == [] then file else Commands(Command(file, g, ops[0], isToml), g, ops[1..], isToml)
  }

  lemma KeyWrittenIsRead(k: KeyItem, isToml: Grammar)
    requires CleanKey(k, isToml)
    ensures ReadKey(WriteKey(k), isToml) == k
  {
    hide CanonicalText, Parse, Unparse;
    ParseUnparsed(k.prefix, isToml);
  }

  lemma SectionWrittenIsRead(n: Named, isToml: Grammar)
    requires Clean(n.section, isToml)
    ensures ReadSection(WriteSection(n), isToml) == n
  {
    hide CanonicalText, Parse, Unparse, CleanKey, ReadKey, WriteKey;
    ParseUnparsed(n.section.tail, isToml);
    var keys, read := n.section.keys, ReadSection(WriteSection(n), isToml).section.keys;
    forall i | 0 <= i < |keys| ensures read[i] == keys[i] {
      KeyWrittenIsRead(keys[i], isToml);
    }
    assert read == keys;
  }

  /** A clean document comes back from its file. */
  lemma WrittenIsRead(doc: seq<Named>, isToml: Grammar)
    requires CleanDoc(doc, isToml)
    ensures ReadFile(WriteFile(doc), isToml) == doc
  {
    hide Clean, ReadSection, WriteSection;
    var read := ReadFile(WriteFile(doc), isToml);
    forall i | 0 <= i < |doc| ensures read[i] == doc[i] {
      SectionWrittenIsRead(doc[i], isToml);
    }
    assert read == doc;
  }

  /** The values in the file can be banked. */
  predicate ValuesAreToml(file: seq<FileSection>, isToml: Grammar) {
    forall i, j | 0 <= i < |file| && 0 <= j < |file[i].keys| :: Bankable(file[i].keys[j].value, isToml)
  }

  /** Whatever was in the comments, what is read is clean. */
  lemma ReadIsClean(file: seq<FileSection>, isToml: Grammar)
    requires ValuesAreToml(file, isToml)
    ensures CleanDoc(ReadFile(file, isToml), isToml)
  {
    hide CanonicalText, Parse, Bankable;
    forall i | 0 <= i < |file| ensures Clean(ReadFile(file, isToml)[i].section, isToml) {
      ParsedIsCanonical(file[i].tail, isToml);
      forall j | 0 <= j < |file[i].keys| ensures CleanKey(ReadKey(file[i].keys[j], isToml), isToml) {
        ParsedIsCanonical(file[i].keys[j].prefix, isToml);
      }
    }
  }

  predicate AllReadable(ops: seq<Op>, isToml: Grammar) {
    forall i | 0 <= i < |ops| :: Readable(ops[i], isToml)
  }

  /** Reading the file anew before every command and writing it after is the run on one document. */
  lemma {:induction false} CommandsAreOneRun(doc: seq<Named>, file: seq<FileSection>, g: Registry, ops: seq<Op>, isToml: Grammar)
    requires doc == ReadFile(file, isToml) && CleanDoc(doc, isToml) && PlainRegistry(g) && AllReadable(ops, isToml)
    ensures ReadFile(Commands(file, g, ops, isToml), isToml) == RunAll(doc, g, ops)
    decreases |ops|
  {
    hide CleanDoc, PlainRegistry, Readable, Apply, ReadFile, WriteFile;
    if ops != [] {
      var next := Apply(doc, g, ops[0]);
      ApplyIsClean(doc, g, ops[0], isToml);
      WrittenIsRead(next, isToml);
      CommandsAreOneRun(next, Command(file, g, ops[0], isToml), g, ops[1..], isToml);
    }
  }

  /** Every run of commands, each of which reads the file anew, leaves each key's text history equal to
    * replaying that key's own commands on a value and a stack of at most five entries. */
  lemma FileRefines(file: seq<FileSection>, g: Registry, ops: seq<Op>, section: string, flag: string, isToml: Grammar)
    requires ValuesAreToml(file, isToml) && PlainRegistry(g) && AllReadable(ops, isToml)
    requires var doc := ReadFile(file, isToml);
      && SoundDoc(doc, g) && g(section).managed(flag) && Position(doc, section) < |doc|
      && forall i | 0 <= i < |ops| :: Proper(doc, ops[i])
    ensures var doc, end := ReadFile(file, isToml), ReadFile(Commands(file, g, ops, isToml), isToml);
      && SoundDoc(end, g) && Position(end, section) < |end|
      && StateAt(end, g, section, flag) == Replay(StateAt(doc, g, section, flag), g(section), ops, section, flag)
  {
    hide *;
    var doc := ReadFile(file, isToml);
    ReadIsClean(file, isToml);
    CommandsAreOneRun(doc, file, g, ops, isToml);
    RunRefines(doc, g, ops, section, flag);
  }

  // ----- A stamp that is not read back

  lemma FirstSet(value: string, other: string, now: string, r: Rules, flag: string)
    requires r.managed(flag) && r.valid(flag, other) && !r.same(flag, value, other) && SingleLine(value)
    ensures SetKey(Section([KeyItem(flag, EMPTY, value)], EMPTY), r, flag, other, now) ==
            Section([KeyItem(flag, Text([Was(WasEntry(value, now))], Blank), other)], EMPTY)
  {
    hide PushStack, SingleLine;
    PushedOnNothing(WasEntry(value, now));
    var k := KeyItem(flag, EMPTY, value);
    assert IndexOf([k], flag) == 0;
    assert [k][0 := KeyItem(flag, PushStack(EMPTY, WasEntry(value, now)), other)] == [KeyItem(flag, PushStack(EMPTY, WasEntry(value, now)), other)];
  }

  /** A value banked under a stamp from the year 10000 on is in the file, but the next command does not
    * see it. */
  lemma LateStampIsLost(value: string, other: string, secs: nat, r: Rules, flag: string, isToml: Grammar)
    requires r.managed(flag) && r.valid(flag, other) && !r.same(flag, value, other) && SingleLine(value) && isToml(value)
    ensures var s := SetKey(Section([KeyItem(flag, EMPTY, value)], EMPTY), r, flag, other, FormatTimestamp(secs));
      && |s.keys| == 1 && Split(s.keys[0].prefix).stack == [WasEntry(value, FormatTimestamp(secs))]
      && (Split(Parse(Unparse(s.keys[0].prefix), isToml)).stack == Split(s.keys[0].prefix).stack <==> secs < YEAR_10000)
  {
    hide *;
    var now := FormatTimestamp(secs);
    FirstSet(value, other, now, r, flag);
    PushedOnNothing(WasEntry(value, now));
    BankedReadsBack(value, secs, isToml);
    OneEntryReadsBack(WasEntry(value, now), isToml);
  }

  lemma PushedOnNothing(e: WasEntry)
    ensures PushStack(EMPTY, e) == Text([Was(e)], Blank) && Split(Text([Was(e)], Blank)).stack == [e]
  {
    assert [Was(e)][..0] == [] && Init([Was(e)]) == [];
  }

  lemma OneEntryReadsBack(e: WasEntry, isToml: Grammar)
    requires SingleLine(e.value)
    ensures Split(Parse(Unparse(Text([Was(e)], Blank)), isToml)).stack == [e] <==> Canonical(Was(e), isToml)
  {
    var t := Text([Was(e)], Blank);
    BlankReadsBack(isToml);
    hide Canonical, Parse, Unparse, Split;
    if Canonical(Was(e), isToml) {
      ParseUnparsed(t, isToml);
      PushedOnNothing(e);
    } else {
      var read := Parse(Unparse(t), isToml);
      ParsedIsCanonical(Unparse(t), isToml);
      CleanSplit(read, isToml);
      FirstIsClean(Split(read).stack, e, isToml);
    }
  }

  lemma FirstIsClean(stack: seq<WasEntry>, e: WasEntry, isToml: Grammar)
    requires CleanStack(stack, isToml) && !Canonical(Was(e), isToml)
    ensures stack != [e]
  {
    hide Canonical;
    assert stack != [] ==> Canonical(Was(stack[0]), isToml);
  }
}
