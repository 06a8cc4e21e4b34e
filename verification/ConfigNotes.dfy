/** That no command loses a line the user wrote: comments are moved, never dropped or made up. */
module ConfigNotes {
  import opened ConfigRun
  import opened ConfigSection
  import opened HistoryBlocks
  import opened HistoryHolders
  import opened HistoryRuns
  import opened HistoryStack
  import opened HistoryText
  import opened Seqs
  import opened Wrappers

  // ----- The user's lines of a text

  /** Neither history nor a tag nor white space. */
  predicate IsNote(l: Line) {
    match l
    case Was(_) => false
    case Tag(_) => false
    case Blank => false
    case Space(_) => false
    case Hash(_) => true
    case Other(_) => true
  }

  function Notes(ls: seq<Line>): seq<Line> {
    if ls == [] then [] else (if IsNote(ls[0]) then [ls[0]] else []) + Notes(ls[1..])
  }

  function NotesOf(t: Text): seq<Line> {
    Notes(AllLines(t))
  }

  lemma {:induction false} NotesConcat(a: seq<Line>, b: seq<Line>)
    ensures Notes(a + b) == Notes(a) + Notes(b)
  {
    if a == [] {
      assert a + b == b;
    } else {
      assert (a + b)[1..] == a[1..] + b;
      NotesConcat(a[1..], b);
      Assoc(if IsNote(a[0]) then [a[0]] else [], Notes(a[1..]), Notes(b));
    }
  }

  lemma {:induction false} NoNotes(ls: seq<Line>)
    requires forall i | 0 <= i < |ls| :: !IsNote(ls[i])
    ensures Notes(ls) == []
  {
    if ls != [] {
      NoNotes(ls[1..]);
    }
  }

  lemma WasIsNoNote(ls: seq<Line>)
    requires AllWas(ls)
    ensures Notes(ls) == []
  {
    NoNotes(ls);
  }

  lemma BlankIsNoNote(ls: seq<Line>)
    requires AllBlank(ls)
    ensures Notes(ls) == []
  {
    NoNotes(ls);
  }

  lemma OneLineNotes(l: Line)
    ensures Notes([l]) == if IsNote(l) then [l] else []
  {
    assert [l][1..] == [];
  }

  lemma NotesOfText(t: Text)
    ensures NotesOf(t) == Notes(t.lines) + if IsNote(t.tail) then [t.tail] else []
  {
    NotesConcat(t.lines, [t.tail]);
    OneLineNotes(t.tail);
  }

  lemma NotesOfLines(ls: seq<Line>, tail: Line)
    requires IsWhite(tail)
    ensures NotesOf(Text(ls, tail)) == Notes(ls)
  {
    NotesOfText(Text(ls, tail));
    hide Notes;
    assert Notes(ls) + [] == Notes(ls);
  }

  // ----- Splitting, rendering, attaching and cutting

  lemma SplitKeepsNotes(t: Text)
    ensures NotesOf(Split(t).head) == NotesOf(t) && IsWhite(Split(t).indent)
  {
    hide Notes, StackLen, Entries, NotesOf, AllLines;
    var body := if IsWhite(t.tail) then t.lines else AllLines(t);
    var cut := |body| - StackLen(body);
    StackIsWas(body);
    WasIsNoNote(body[cut..]);
    NotesConcat(body[..cut], body[cut..]);
    SplitAt(body, cut);
    assert Notes(body[..cut]) + [] == Notes(body[..cut]);
    NotesOfLines(body[..cut], Blank);
    if IsWhite(t.tail) {
      NotesOfLines(t.lines, t.tail);
    }
    NotesAre(t);
  }

  lemma StackIsWas(body: seq<Line>)
    ensures AllWas(body[|body| - StackLen(body)..])
  {
  }

  lemma NotesAre(t: Text)
    ensures NotesOf(t) == Notes(AllLines(t))
  {
  }

  lemma TerminatedKeepsNotes(t: Text)
    ensures Notes(Terminated(t)) == NotesOf(t)
  {
    if t.tail == Blank {
      NotesOfLines(t.lines, Blank);
    }
  }

  lemma RenderKeepsNotes(head: Text, stack: seq<WasEntry>, indent: Line)
    requires IsWhite(indent)
    ensures NotesOf(RenderStackBlock(head, stack, indent)) == NotesOf(head)
  {
    hide Notes, NotesOf, WasLines, Terminated;
    TerminatedKeepsNotes(head);
    WasIsNoNote(WasLines(stack));
    NotesConcat(Terminated(head), WasLines(stack));
    NotesOfLines(Terminated(head) + WasLines(stack), indent);
    assert Notes(Terminated(head)) + [] == Notes(Terminated(head));
  }

  lemma OrphanKeepsNotes(head: Text, flag: string, stack: seq<WasEntry>)
    ensures NotesOf(RenderOrphanBlock(head, flag, stack)) == NotesOf(head)
  {
    hide Notes, NotesOf, WasLines, Terminated;
    TerminatedKeepsNotes(head);
    WasIsNoNote(WasLines(stack));
    OneLineNotes(Tag(flag));
    NotesConcat(Terminated(head), [Tag(flag)]);
    NotesConcat(Terminated(head) + [Tag(flag)], WasLines(stack));
    NotesOfLines(Terminated(head) + [Tag(flag)] + WasLines(stack), Blank);
    assert Notes(Terminated(head)) + [] == Notes(Terminated(head));
  }

  lemma TrimEndKeepsNotes(t: Text)
    ensures Notes(AllLines(TrimEnd(t))) == NotesOf(t)
  {
    hide TrimEnd, Notes;
    var blanks := TrimEndCuts(t);
    BlankIsNoNote(blanks);
    NotesConcat(AllLines(TrimEnd(t)), blanks);
    assert Notes(AllLines(TrimEnd(t))) + [] == Notes(AllLines(TrimEnd(t)));
  }

  lemma DropBlanksKeepsNotes(ls: seq<Line>)
    ensures Notes(DropBlanks(ls)) == Notes(ls)
  {
    hide DropBlanks, Notes;
    var blanks := DropBlanksCuts(ls);
    BlankIsNoNote(blanks);
    NotesConcat(blanks, DropBlanks(ls));
    assert [] + Notes(DropBlanks(ls)) == Notes(DropBlanks(ls));
  }

  lemma AttachAboveNotes(block: Text, prefix: Text)
    ensures NotesOf(AttachAbove(block, prefix)) == NotesOf(block) + NotesOf(prefix)
  {
    hide Notes, TrimEnd, DropBlanks, AllLines;
    var b, rest, tail := AllLines(TrimEnd(block)), DropBlanks(prefix.lines), if IsNote(prefix.tail) then [prefix.tail] else [];
    TrimEndKeepsNotes(block);
    DropBlanksKeepsNotes(prefix.lines);
    NotesOfText(prefix);
    NotesOfText(AttachAbove(block, prefix));
    OneLineNotes(Blank);
    NotesConcat(b, [Blank]);
    NotesConcat(b + [Blank], rest);
    assert Notes(b) + [] == Notes(b);
    Assoc(Notes(b), Notes(rest), tail);
  }

  lemma BlankBelowNotes(ls: seq<Line>)
    ensures Notes(ls + [Blank]) == Notes(ls)
  {
    hide Notes;
    NotesConcat(ls, [Blank]);
    OneLineNotes(Blank);
    assert Notes(ls) + [] == Notes(ls);
  }

  lemma AppendNotes(text: Text, block: Text)
    ensures Notes(AppendBlock(text, block).lines) == NotesOf(text) + NotesOf(block)
    ensures AppendBlock(text, block).tail == Blank
  {
    hide Notes, TrimEnd, AllLines;
    var trimmed, b := TrimEnd(text), AllLines(TrimEnd(block));
    TrimEndKeepsNotes(text);
    TrimEndKeepsNotes(block);
    if trimmed != EMPTY {
      BlankBelowNotes(AllLines(trimmed));
      NotesConcat(AllLines(trimmed) + [Blank], b);
    } else {
      NothingToNote(text);
      NotesConcat(text.lines, b);
    }
  }

  lemma NothingToNote(text: Text)
    requires TrimEnd(text) == EMPTY
    ensures Notes(text.lines) == [] && NotesOf(text) == []
  {
    TrimEndKeepsNotes(text);
    assert [Blank][1..] == [];
    NotesOfText(text);
  }

  lemma AttachTailNotes(text: Text, block: Text, inHeader: bool)
    ensures NotesOf(AttachTail(text, block, inHeader)) == NotesOf(text) + NotesOf(block)
  {
    hide Notes, AppendBlock, NotesOf;
    var t := AppendBlock(text, block);
    AppendNotes(text, block);
    BlankBelowNotes(t.lines);
    NotesOfLines(t.lines, Blank);
    NotesOfLines(t.lines + [Blank], Blank);
  }

  lemma {:induction false} SqueezedKeepsNotes(ls: seq<Line>, c: nat)
    requires c <= 2
    ensures Notes(Squeezed(ls, c)) == Notes(ls)
  {
    if ls != [] {
      var n := if ls[0] != Blank then 1 else if c == 2 then 2 else c + 1;
      SqueezedKeepsNotes(ls[1..], n);
      SqueezedFirst(ls, c);
      hide Squeezed;
      var first := if ls[0] == Blank && c == 2 then [] else [ls[0]];
      NotesConcat(first, Squeezed(ls[1..], n));
      OneLineNotes(ls[0]);
    }
  }

  lemma ThreePiecesNotes(ls: seq<Line>, i: nat, j: nat, k: nat)
    requires i <= j <= k <= |ls| && AllBlank(ls[j..k])
    ensures Notes(ls) == Notes(ls[..i]) + Notes(ls[i..j]) + Notes(ls[k..])
  {
    hide Notes;
    BlankIsNoNote(ls[j..k]);
    NotesConcat(ls[..i], ls[i..]);
    NotesConcat(ls[i..j], ls[j..]);
    NotesConcat(ls[j..k], ls[k..]);
    SplitAt(ls, i);
    TailSplit(ls, i, j);
    TailSplit(ls, j, k);
    assert [] + Notes(ls[k..]) == Notes(ls[k..]);
    Assoc(Notes(ls[..i]), Notes(ls[i..j]), Notes(ls[k..]));
  }

  /** What is cut out of a text and what is left of it hold its notes. */
  lemma CutNotes(ls: seq<Line>, r: Run)
    requires IsRun(ls, r)
    ensures var cut := CutAt(ls, r); Notes(ls) == Notes(cut.above) + Notes(cut.block) + Notes(cut.below)
  {
    hide Notes, BlockStart;
    var range := BlockRange(ls, r);
    BlankSeparator(ls, r.end);
    ThreePiecesNotes(ls, range.start, r.end, range.end);
    OneLineNotes(Blank);
    NoLinesNoNotes();
    assert range.end == |ls| ==> ls[range.end..] == [];
  }

  lemma NoLinesNoNotes()
    ensures Notes([]) == []
  {
  }

  lemma BlankSeparator(ls: seq<Line>, e: nat)
    requires 0 < e <= |ls|
    ensures AllBlank(ls[e..BlockEnd(ls, e)])
  {
  }

  lemma ExcisedNotes(t: Text, k: nat)
    requires k < |Runs(AllLines(t))|
    ensures multiset(NotesOf(t)) == multiset(NotesOf(Excised(t, k))) + multiset(Notes(ExcisedBlock(t, k)))
  {
    hide Notes, Runs, AllLines, CutAt, Squeezed, NotesOf;
    var cut := CutAt(AllLines(t), RunAt(AllLines(t), k));
    CutNotes(AllLines(t), RunAt(AllLines(t), k));
    CutHasLines(AllLines(t), RunAt(AllLines(t), k));
    var left := FromLines(cut.above + cut.below);
    NotesAre(t);
    LinesOfFromLines(cut.above + cut.below);
    NotesAre(left);
    NotesConcat(cut.above, cut.below);
    SqueezedKeepsNotes(left.lines, 0);
    NotesOfText(left);
    NotesOfText(Tidied(left));
  }

  lemma CutHasLines(ls: seq<Line>, r: Run)
    requires IsRun(ls, r)
    ensures var cut := CutAt(ls, r); cut.above + cut.below != []
  {
    hide BlockStart;
  }

  lemma {:induction false} WithoutTagKeepsNotes(block: seq<Line>, flag: string)
    ensures Notes(WithoutTag(block, flag)) == Notes(block)
  {
    if block != [] && block[0] != Tag(flag) {
      WithoutTagKeepsNotes(block[1..], flag);
    }
  }

  // ----- The notes of a section, in file order

  function KeysNotes(keys: seq<KeyItem>): seq<Line> {
    if keys == [] then [] else NotesOf(keys[0].prefix) + KeysNotes(keys[1..])
  }

  function SectionNotes(s: Section): seq<Line> {
    KeysNotes(s.keys) + NotesOf(s.tail)
  }

  lemma {:induction false} KeysNotesConcat(a: seq<KeyItem>, b: seq<KeyItem>)
    ensures KeysNotes(a + b) == KeysNotes(a) + KeysNotes(b)
  {
    hide NotesOf;
    if a == [] {
      assert a + b == b;
    } else {
      assert (a + b)[1..] == a[1..] + b;
      KeysNotesConcat(a[1..], b);
      Assoc(NotesOf(a[0].prefix), KeysNotes(a[1..]), KeysNotes(b));
    }
  }

  lemma OneKeyNotes(k: KeyItem)
    ensures KeysNotes([k]) == NotesOf(k.prefix)
  {
    hide NotesOf;
    assert [k][1..] == [] && NotesOf(k.prefix) + [] == NotesOf(k.prefix);
  }

  /** The keys above a key, its own notes, the keys below. */
  lemma NotesAround(keys: seq<KeyItem>, i: nat, k: KeyItem)
    requires i < |keys|
    ensures KeysNotes(keys[i := k]) == KeysNotes(keys[..i]) + NotesOf(k.prefix) + KeysNotes(keys[i + 1..])
  {
    hide NotesOf, KeysNotes;
    assert keys[i := k] == keys[..i] + [k] + keys[i + 1..];
    KeysNotesConcat(keys[..i] + [k], keys[i + 1..]);
    KeysNotesConcat(keys[..i], [k]);
    OneKeyNotes(k);
  }

  lemma SameNotesWhenReplaced(s: Section, i: nat, k: KeyItem)
    requires i < |s.keys| && NotesOf(k.prefix) == NotesOf(s.keys[i].prefix)
    ensures SectionNotes(s.(keys := s.keys[i := k])) == SectionNotes(s)
  {
    hide NotesOf, KeysNotes;
    NotesAround(s.keys, i, k);
    NotesAround(s.keys, i, s.keys[i]);
    assert s.keys[i := s.keys[i]] == s.keys;
  }

  lemma AddedKeyNotes(s: Section, k: KeyItem)
    ensures multiset(SectionNotes(s.(keys := s.keys + [k]))) == multiset(SectionNotes(s)) + multiset(NotesOf(k.prefix))
  {
    hide NotesOf, KeysNotes;
    KeysNotesConcat(s.keys, [k]);
    OneKeyNotes(k);
  }

  lemma HolderNotes(s: Section, p: Place, t: Text)
    requires p.InKey? ==> p.i < |s.keys|
    ensures multiset(SectionNotes(WithHolder(s, p, t))) + multiset(NotesOf(HolderText(s, p))) ==
            multiset(SectionNotes(s)) + multiset(NotesOf(t))
  {
    hide NotesOf, KeysNotes;
    if p.InKey? {
      var k := s.keys[p.i].(prefix := t);
      NotesAround(s.keys, p.i, k);
      NotesAround(s.keys, p.i, s.keys[p.i]);
      assert s.keys[p.i := s.keys[p.i]] == s.keys;
    }
  }

  lemma PlaceIsThere(s: Section, r: Rules, p: Place)
    requires IsPlace(s, r, p)
    ensures p.InKey? ==> p.i < |s.keys|
  {
  }

  lemma CancelBag<T>(a: multiset<T>, b: multiset<T>, c: multiset<T>)
    requires a + c == b + c
    ensures a == b
  {
    forall x ensures a[x] == b[x] {
      assert (a + c)[x] == (b + c)[x];
    }
  }

  lemma AdoptNotes(s: Section, r: Rules, flag: string)
    ensures var a := Adopt(s, r, flag);
      multiset(SectionNotes(s)) ==
      multiset(SectionNotes(a.section)) + multiset(NotesOf(if a.prefix.Some? then a.prefix.value else EMPTY))
  {
    hide SectionNotes, FindOrphan, Excised, ExcisedBlock, Runs, WithoutTag, HolderText, WithHolder, IsPlace, NotesOf, AllLines;
    NotesOfLines([], Blank);
    NoLinesNoNotes();
    var found := FindOrphan(s, r, flag);
    if found.Some? {
      var p := found.value;
      PlaceIsThere(s, r, p);
      var t := HolderText(s, p);
      if p.k < |Runs(AllLines(t))| {
        ExcisedNotes(t, p.k);
        HolderNotes(s, p, Excised(t, p.k));
        WithoutTagKeepsNotes(ExcisedBlock(t, p.k), flag);
        NotesOfLines(WithoutTag(ExcisedBlock(t, p.k), flag), Blank);
        var a := Adopt(s, r, flag);
        CancelBag(multiset(SectionNotes(s)), multiset(SectionNotes(a.section)) + multiset(NotesOf(a.prefix.value)),
                  multiset(NotesOf(Excised(t, p.k))));
      }
    }
  }

  // ----- Commands on a section

  lemma RestackKeepsNotes(prefix: Text, stack: seq<WasEntry>)
    ensures var p := Split(prefix); NotesOf(RenderStackBlock(p.head, stack, p.indent)) == NotesOf(prefix)
  {
    hide NotesOf, Split, RenderStackBlock;
    var p := Split(prefix);
    SplitKeepsNotes(prefix);
    RenderKeepsNotes(p.head, stack, p.indent);
  }

  lemma SetKeepsNotes(s: Section, r: Rules, flag: string, value: string, now: string)
    ensures multiset(SectionNotes(SetKey(s, r, flag, value, now))) == multiset(SectionNotes(s))
  {
    hide SectionNotes, NotesOf, Adopt, Split, RenderStackBlock, Capped, IndexOf, SingleLine;
    if HasKey(s.keys, flag) {
      var i := IndexOf(s.keys, flag);
      var k := s.keys[i];
      RestackKeepsNotes(k.prefix, Capped([WasEntry(k.value, now)] + Split(k.prefix).stack));
      SameNotesWhenReplaced(s, i, KeyItem(flag, PushStack(k.prefix, WasEntry(k.value, now)), value));
      SameNotesWhenReplaced(s, i, KeyItem(flag, k.prefix, value));
    } else {
      var a := Adopt(s, r, flag);
      AdoptNotes(s, r, flag);
      AddedKeyNotes(a.section, KeyItem(flag, if a.prefix.Some? then a.prefix.value else EMPTY, value));
    }
  }

  lemma UnindentedKeepsNotes(t: Text)
    ensures NotesOf(Unindented(t)) == NotesOf(t)
  {
    if IsWhite(t.tail) {
      NotesOfLines(t.lines, t.tail);
      NotesOfLines(t.lines, Blank);
    }
  }

  lemma LeftBehindKeepsNotes(k: KeyItem, managed: bool, now: string)
    ensures NotesOf(LeftBehind(k, managed, now)) == NotesOf(k.prefix)
  {
    hide NotesOf, Split, Unindented, RenderOrphanBlock, Capped, SingleLine;
    var bare := Unindented(k.prefix);
    UnindentedKeepsNotes(k.prefix);
    SplitKeepsNotes(bare);
    OrphanKeepsNotes(Split(bare).head, k.flag, Capped([WasEntry(k.value, now)] + Split(bare).stack));
  }

  /** Above a key that follows, the attached block's notes come first, where the removed key's were. */
  lemma AttachedNotes(keys: seq<KeyItem>, tail: Text, i: nat, block: Text, inHeader: bool)
    requires i < |keys|
    ensures var rest := keys[..i] + keys[i + 1..];
      SectionNotes(AttachBlock(Section(rest, tail), i, block, inHeader)) ==
      if i + 1 < |keys| then KeysNotes(keys[..i]) + NotesOf(block) + KeysNotes(keys[i + 1..]) + NotesOf(tail)
      else KeysNotes(keys[..i]) + (NotesOf(tail) + NotesOf(block))
  {
    hide NotesOf, KeysNotes, AttachAbove, AttachTail;
    var rest := keys[..i] + keys[i + 1..];
    if block == EMPTY {
      EmptyHasNoNotes();
      KeysNotesConcat(keys[..i], keys[i + 1..]);
      assert KeysNotes(keys[..i]) + [] == KeysNotes(keys[..i]) && NotesOf(tail) + [] == NotesOf(tail);
      NoKeysNoNotes();
      assert KeysNotes(keys[..i]) + [] == KeysNotes(keys[..i]);
    } else if i + 1 < |keys| {
      var k := rest[i];
      AttachAboveNotes(block, k.prefix);
      NotesAround(rest, i, k.(prefix := AttachAbove(block, k.prefix)));
      assert rest[..i] == keys[..i] && rest[i + 1..] == keys[i + 1..][1..] && k == keys[i + 1..][0];
      FirstKeyNotes(keys[i + 1..]);
      Regrouped(KeysNotes(keys[..i]), NotesOf(block), NotesOf(k.prefix), KeysNotes(keys[i + 1..][1..]));
    } else {
      AttachTailNotes(tail, block, inHeader);
      assert rest == keys[..i];
    }
  }

  lemma Regrouped<T>(a: seq<T>, b: seq<T>, c: seq<T>, d: seq<T>)
    ensures a + (b + c) + d == a + b + (c + d)
  {
  }

  lemma EmptyHasNoNotes()
    ensures NotesOf(EMPTY) == []
  {
    NotesOfLines([], Blank);
  }

  lemma NoKeysNoNotes()
    ensures KeysNotes([]) == []
  {
  }

  lemma FirstKeyNotes(keys: seq<KeyItem>)
    requires keys != []
    ensures KeysNotes(keys) == NotesOf(keys[0].prefix) + KeysNotes(keys[1..])
  {
  }

  /** Unset keeps the section's notes, and unless the key was the last one also their order. */
  lemma UnsetKeepsNotes(s: Section, r: Rules, flag: string, now: string, inHeader: bool)
    ensures var s' := UnsetKey(s, r, flag, now, inHeader);
      && multiset(SectionNotes(s')) == multiset(SectionNotes(s))
      && (IndexOf(s.keys, flag) != |s.keys| - 1 ==> SectionNotes(s') == SectionNotes(s))
  {
    hide NotesOf, KeysNotes, LeftBehind, AttachBlock, IndexOf;
    if HasKey(s.keys, flag) {
      var i := IndexOf(s.keys, flag);
      var k := s.keys[i];
      LeftBehindKeepsNotes(k, r.managed(flag), now);
      NotesAround(s.keys, i, k);
      assert s.keys[i := k] == s.keys;
      KeyIsAt(s.keys, flag);
      AttachedNotes(s.keys, s.tail, i, LeftBehind(k, r.managed(flag), now), inHeader);
      assert s.(keys := s.keys[..i] + s.keys[i + 1..]) == Section(s.keys[..i] + s.keys[i + 1..], s.tail);
      NoKeysNoNotes();
      if i + 1 == |s.keys| {
        assert s.keys[i + 1..] == [];
        SameBag(KeysNotes(s.keys[..i]), NotesOf(k.prefix), NotesOf(s.tail));
      }
    }
  }

  lemma SameBag<T>(a: seq<T>, b: seq<T>, c: seq<T>)
    ensures multiset(a + b + [] + c) == multiset(a + (c + b))
  {
  }

  lemma KeyIsAt(keys: seq<KeyItem>, flag: string)
    requires HasKey(keys, flag)
    ensures keys[IndexOf(keys, flag)].flag == flag
  {
  }

  lemma RevertKeepsNotes(s: Section, r: Rules, flag: string, to: Option<string>, now: string)
    ensures multiset(SectionNotes(RevertKey(s, r, flag, to, now))) == multiset(SectionNotes(s))
  {
    hide SectionNotes, NotesOf, Adopt, Split, RenderStackBlock, Capped, IndexOf, SingleLine, KeyStack, Chosen, Without;
    var stack := KeyStack(s, r, flag);
    var c := Chosen(stack, to);
    if c < |stack| {
      if HasKey(s.keys, flag) {
        var j := IndexOf(s.keys, flag);
        var k := s.keys[j];
        var rest := if SingleLine(k.value) then Capped([WasEntry(k.value, now)] + Without(stack, c)) else Without(stack, c);
        var p := Split(k.prefix);
        RestackKeepsNotes(k.prefix, rest);
        SameNotesWhenReplaced(s, j, KeyItem(flag, RenderStackBlock(p.head, rest, p.indent), stack[c].value));
      } else {
        var a := Adopt(s, r, flag);
        var prefix := if a.prefix.Some? then a.prefix.value else EMPTY;
        var p := Split(prefix);
        AdoptNotes(s, r, flag);
        RestackKeepsNotes(prefix, Without(stack, c));
        AddedKeyNotes(a.section, KeyItem(flag, RenderStackBlock(p.head, Without(stack, c), p.indent), stack[c].value));
      }
    }
  }

  // ----- Commands on a document

  function AllNotes(doc: seq<Named>): seq<Line> {
    if doc == [] then [] else SectionNotes(doc[0].section) + AllNotes(doc[1..])
  }

  lemma {:induction false} AllNotesConcat(a: seq<Named>, b: seq<Named>)
    ensures AllNotes(a + b) == AllNotes(a) + AllNotes(b)
  {
    hide SectionNotes;
    if a == [] {
      assert a + b == b;
    } else {
      assert (a + b)[1..] == a[1..] + b;
      AllNotesConcat(a[1..], b);
      Assoc(SectionNotes(a[0].section), AllNotes(a[1..]), AllNotes(b));
    }
  }

  lemma AllNotesAround(doc: seq<Named>, i: nat, n: Named)
    requires i < |doc|
    ensures AllNotes(doc[i := n]) == AllNotes(doc[..i]) + SectionNotes(n.section) + AllNotes(doc[i + 1..])
  {
    hide SectionNotes;
    assert doc[i := n] == doc[..i] + ([n] + doc[i + 1..]);
    AllNotesConcat(doc[..i], [n] + doc[i + 1..]);
    assert ([n] + doc[i + 1..])[1..] == doc[i + 1..];
    Assoc(AllNotes(doc[..i]), SectionNotes(n.section), AllNotes(doc[i + 1..]));
  }

  lemma SectionChanged(doc: seq<Named>, i: nat, s: Section)
    requires i < |doc| && multiset(SectionNotes(s)) == multiset(SectionNotes(doc[i].section))
    ensures multiset(AllNotes(doc[i := doc[i].(section := s)])) == multiset(AllNotes(doc))
  {
    hide SectionNotes, AllNotes;
    AllNotesAround(doc, i, doc[i].(section := s));
    AllNotesAround(doc, i, doc[i]);
    assert doc[i := doc[i]] == doc;
  }

  lemma OneSectionNotes(n: Named)
    ensures AllNotes([n]) == SectionNotes(n.section)
  {
    hide SectionNotes;
    assert [n][1..] == [] && SectionNotes(n.section) + [] == SectionNotes(n.section);
  }

  lemma BlankTailNotes(s: Section)
    ensures SectionNotes(s) == SectionNotes(s.(tail := Text([Blank], Blank))) + SectionNotes(Section([], s.tail))
  {
    BlankBelowNotes([]);
    NotesOfLines([Blank], Blank);
    hide Notes, NotesOf;
    NoLinesNoNotes();
    assert KeysNotes(s.keys) + [] == KeysNotes(s.keys);
    assert [] + NotesOf(s.tail) == NotesOf(s.tail);
  }

  lemma CreatingKeepsNotes(doc: seq<Named>, name: string)
    ensures AllNotes(WithSection(doc, name)) == AllNotes(doc)
  {
    hide SectionNotes, AllNotes, Position;
    if Position(doc, name) == |doc| {
      if doc == [] {
        OneSectionNotes(Named(name, Section([], EMPTY)));
        EmptySectionNotes();
      } else {
        var n := |doc| - 1;
        var cut, created := doc[n].(section := doc[n].section.(tail := Text([Blank], Blank))), Named(name, Section([], doc[n].section.tail));
        BlankTailNotes(doc[n].section);
        AllNotesConcat(doc[n := cut], [created]);
        OneSectionNotes(created);
        LastSectionNotes(doc, cut);
        LastSectionNotes(doc, doc[n]);
        assert doc[n := doc[n]] == doc;
        Assoc(AllNotes(doc[..n]), SectionNotes(cut.section), SectionNotes(created.section));
      }
    }
  }

  lemma EmptySectionNotes()
    ensures SectionNotes(Section([], EMPTY)) == [] && AllNotes([]) == []
  {
    EmptyHasNoNotes();
  }

  lemma LastSectionNotes(doc: seq<Named>, n: Named)
    requires doc != []
    ensures AllNotes(doc[|doc| - 1 := n]) == AllNotes(doc[..|doc| - 1]) + SectionNotes(n.section)
  {
    hide SectionNotes, AllNotes;
    assert doc[|doc| - 1 := n] == doc[..|doc| - 1] + [n];
    AllNotesConcat(doc[..|doc| - 1], [n]);
    OneSectionNotes(n);
  }

  /** Over any document and any command the lines the user wrote are the same afterwards. */
  lemma CommandKeepsNotes(doc: seq<Named>, g: Registry, op: Op)
    ensures multiset(AllNotes(Apply(doc, g, op))) == multiset(AllNotes(doc))
  {
    hide SectionNotes, AllNotes, Position, WithSection, SetKey, UnsetKey, RevertKey;
    CreatingKeepsNotes(doc, op.section);
    var ready := Opened(doc, g, op);
    var i := Position(ready, op.section);
    if i < |ready| {
      var s, r := ready[i].section, g(op.section);
      match op
      case SetOp(_, flag, value, now) =>
        SetKeepsNotes(s, r, flag, value, now);
        SectionChanged(ready, i, SetKey(s, r, flag, value, now));
      case UnsetOp(_, flag, now) =>
        UnsetKeepsNotes(s, r, flag, now, i + 1 < |ready|);
        SectionChanged(ready, i, UnsetKey(s, r, flag, now, i + 1 < |ready|));
      case RevertOp(_, flag, to, now) =>
        RevertKeepsNotes(s, r, flag, to, now);
        SectionChanged(ready, i, RevertKey(s, r, flag, to, now));
    }
  }

  /** No run of commands loses, repeats or makes up a line the user wrote. */
  lemma {:induction false} NotesSurvive(doc: seq<Named>, g: Registry, ops: seq<Op>)
    ensures multiset(AllNotes(RunAll(doc, g, ops))) == multiset(AllNotes(doc))
    decreases |ops|
  {
    hide AllNotes, Apply;
    if ops != [] {
      CommandKeepsNotes(doc, g, ops[0]);
      NotesSurvive(Apply(doc, g, ops[0]), g, ops[1..]);
    }
  }

  // ----- The text below a section

  /** Unsetting a section's last key leaves what stands below it where it is, down to the last line that
    * is not blank. */
  lemma TailStaysOnTop(s: Section, r: Rules, flag: string, now: string, inHeader: bool, n: nat)
    requires IndexOf(s.keys, flag) == |s.keys| - 1
    requires var ls := AllLines(s.tail); 0 < n <= |ls| && ls[n - 1] != Blank
    ensures AllLines(s.tail)[..n] <= AllLines(UnsetKey(s, r, flag, now, inHeader).tail)
  {
    hide LeftBehind, IndexOf, TrimEnd, AllLines;
    var block := LeftBehind(s.keys[|s.keys| - 1], r.managed(flag), now);
    if block != EMPTY {
      TrimmedIsLonger(s.tail, n);
      AppendedBelow(s.tail, block, inHeader);
    }
  }

  lemma TrimmedIsLonger(t: Text, n: nat)
    requires 0 < n <= |AllLines(t)| && AllLines(t)[n - 1] != Blank
    ensures n <= |AllLines(TrimEnd(t))| && AllLines(TrimEnd(t)) <= AllLines(t) && TrimEnd(t) != EMPTY
  {
    hide TrimEnd;
    var blanks := TrimEndCuts(t);
    var a := AllLines(TrimEnd(t));
    assert AllLines(t)[n - 1] == (a + blanks)[n - 1];
  }

  lemma AppendedBelow(text: Text, block: Text, inHeader: bool)
    requires TrimEnd(text) != EMPTY
    ensures AllLines(TrimEnd(text)) <= AllLines(AttachTail(text, block, inHeader))
  {
    hide TrimEnd;
  }

  /** A block put above the next section's header has a blank line below it. */
  lemma BlockStandsApart(text: Text, block: Text)
    ensures var t := AttachTail(text, block, true); t.tail == Blank && t.lines != [] && t.lines[|t.lines| - 1] == Blank
  {
    hide TrimEnd;
  }

  /** The key's own indent goes with the key. */
  lemma IndentGoes(k: KeyItem, managed: bool, now: string)
    ensures !LeftBehind(k, managed, now).tail.Space?
  {
    hide WasLines, Capped, StackLen, Entries;
  }
}
