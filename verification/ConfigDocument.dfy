/** The parsed config file as an object edited in place by `set`, `unset` and `revert`. */
module ConfigDocument {
  import opened ConfigEffects
  import opened ConfigRun
  import opened ConfigSection
  import opened HistoryBlocks
  import opened HistoryRuns
  import opened HistoryStack
  import opened HistoryText
  import opened Seqs
  import opened TaggedRuns
  import opened Wrappers

  // ----- Gathering the orphan blocks of one text

  /** The part of a prefix whose runs are orphans: all of it, or what stands above the own stack. */
  function OrphanLines(t: Text, managed: bool): seq<Line> {
    if managed then Split(t).head.lines else AllLines(t)
  }

  lemma OrphanLinesBegin(t: Text, managed: bool) returns (rest: seq<Line>)
    ensures AllLines(t) == OrphanLines(t, managed) + rest
  {
    hide StackLen, Entries;
    var body := if IsWhite(t.tail) then t.lines else AllLines(t);
    var cut := |body| - StackLen(body);
    if !managed {
      rest := [];
    } else if IsWhite(t.tail) {
      rest := body[cut..] + [t.tail];
    } else {
      rest := if cut < |body| then body[cut..] else [t.tail];
    }
  }

  lemma OrphansAreAbove(t: Text, managed: bool)
    ensures OrphanRuns(t, managed) == Runs(OrphanLines(t, managed))
  {
    if managed {
      if IsWhite(t.tail) {
        OrphansAreInTheHead(t);
      } else if t.tail.Was? {
        OrphansAboveUnendedStack(t);
      } else {
        assert Init(AllLines(t)) == t.lines;
        RunsAreRuns(t.lines);
        assert StackLen(AllLines(t)) == 0;
      }
    }
  }

  lemma OrphansAboveUnendedStack(t: Text)
    requires t.tail.Was?
    ensures OrphanRuns(t, true) == Runs(Split(t).head.lines)
  {
    var ls := AllLines(t);
    var cut := |ls| - StackLen(ls);
    assert ls == ls[..cut] + ls[cut..];
    hide Runs;
    RunsAboveStack(ls[..cut], ls[cut..]);
    assert Runs(ls)[..|Runs(ls)| - 1] == Runs(ls[..cut]);
  }

  function BlockOf(ls: seq<Line>, r: Run): Block
    requires r.start <= r.end <= |ls| && AllWas(ls[r.start..r.end])
  {
    Block(UnsetTagAt(ls, r.start), Entries(ls[r.start..r.end]))
  }

  /** A run found in a text gives the block the text's beginning has there. */
  lemma OrphanBlockAt(h: seq<Line>, rest: seq<Line>, k: nat)
    requires k < |Runs(h)|
    ensures |Runs(h)| == |Blocks(h, Blank)|
    ensures var r, ls := RunAt(h, k), h + rest;
      Runs(h)[k] == r && r.start <= r.end <= |ls| && AllWas(ls[r.start..r.end]) && BlockOf(ls, r) == Blocks(h, Blank)[k]
  {
    var r, ls := RunAt(h, k), h + rest;
    BlockOfRun(h, k);
    assert ls[r.start..r.end] == h[r.start..r.end] && ls[..r.start] == h[..r.start];
  }

  /** orphan_runs_in: all runs, without a bottom one directly above a managed key. */
  method OrphanRunsIn(t: Text, managed: bool) returns (runs: seq<Run>)
    ensures runs == OrphanRuns(t, managed)
  {
    runs := ScanRuns(AllLines(t));
    hide Runs;
    if managed && runs != [] {
      var end := runs[|runs| - 1].end;
      if end > |t.lines| || (end == |t.lines| && IsWhite(t.tail)) {
        runs := runs[..|runs| - 1];
      }
    }
  }

  /** The orphan runs of a text, each with the tag directly above it. */
  method OrphansInText(t: Text, managed: bool) returns (blocks: seq<Block>)
    ensures blocks == Blocks(OrphanLines(t, managed), Blank)
  {
    var ls := AllLines(t);
    var runs := OrphanRunsIn(t, managed);
    ghost var h := OrphanLines(t, managed);
    OrphansAreAbove(t, managed);
    SameCount(h);
    ghost var rest := OrphanLinesBegin(t, managed);
    hide *;
    blocks := [];
    for k := 0 to |runs|
      invariant blocks == Blocks(h, Blank)[..k]
    {
      OrphanBlockAt(h, rest, k);
      blocks := blocks + [BlockOf(ls, runs[k])];
    }
  }

  // ----- Gathering the orphan blocks of a section

  /** The places of the blocks `k..n` of the key at `i`, or of the tail. */
  function PlacesIn(i: Option<nat>, k: nat, n: nat): (ps: seq<Place>)
    requires k <= n
    ensures |ps| == n - k
    ensures forall j | 0 <= j < |ps| :: ps[j] == if i.Some? then InKey(i.value, k + j) else InTail(k + j)
    decreases n - k
  {
    if k == n then [] else [if i.Some? then InKey(i.value, k) else InTail(k)] + PlacesIn(i, k + 1, n)
  }

  function PlacesFrom(s: Section, r: Rules, i: nat): seq<Place>
    requires i <= |s.keys|
    decreases |s.keys| - i
  {
    if i == |s.keys| then PlacesIn(None, 0, |TailBlocks(s)|)
    else PlacesIn(Some(i), 0, |OrphansOf(s.keys[i], r.managed(s.keys[i].flag))|) + PlacesFrom(s, r, i + 1)
  }

  function BlocksFrom(s: Section, r: Rules, i: nat): seq<Block>
    requires i <= |s.keys|
    decreases |s.keys| - i
  {
    if i == |s.keys| then TailBlocks(s)
    else OrphansOf(s.keys[i], r.managed(s.keys[i].flag)) + BlocksFrom(s, r, i + 1)
  }

  lemma {:induction false} FirstInConcat(a: seq<Block>, b: seq<Block>, p: Block -> bool)
    ensures FirstIn(a + b, p) == if FirstIn(a, p) < |a| then FirstIn(a, p) else |a| + FirstIn(b, p)
  {
    if a == [] {
      assert a + b == b;
    } else {
      assert (a + b)[1..] == a[1..] + b;
      FirstInConcat(a[1..], b, p);
    }
  }

  /** The first place in file order is the place of the first block gathered. */
  lemma {:induction false} FirstGathered(s: Section, r: Rules, p: Block -> bool, i: nat)
    requires i <= |s.keys|
    ensures |PlacesFrom(s, r, i)| == |BlocksFrom(s, r, i)|
    ensures var n := FirstIn(BlocksFrom(s, r, i), p);
      FirstPlace(s, r, p, i) == if n < |BlocksFrom(s, r, i)| then Some(PlacesFrom(s, r, i)[n]) else None
    decreases |s.keys| - i
  {
    hide OrphansOf, TailBlocks;
    if i < |s.keys| {
      FirstInConcat(OrphansOf(s.keys[i], r.managed(s.keys[i].flag)), BlocksFrom(s, r, i + 1), p);
      FirstGathered(s, r, p, i + 1);
      hide FirstIn;
    }
  }

  lemma Gathered(s: Section, r: Rules, i: nat)
    requires i < |s.keys|
    ensures var k := s.keys[i];
      && BlocksFrom(s, r, i) == Blocks(OrphanLines(k.prefix, r.managed(k.flag)), Blank) + BlocksFrom(s, r, i + 1)
      && PlacesFrom(s, r, i) ==
         PlacesIn(Some(i), 0, |Blocks(OrphanLines(k.prefix, r.managed(k.flag)), Blank)|) + PlacesFrom(s, r, i + 1)
  {
  }

  lemma GatheredLast(s: Section, r: Rules)
    ensures BlocksFrom(s, r, |s.keys|) == Blocks(OrphanLines(s.tail, false), Blank)
    ensures PlacesFrom(s, r, |s.keys|) == PlacesIn(None, 0, |Blocks(OrphanLines(s.tail, false), Blank)|)
  {
  }

  /** gather_orphans: the section's orphan blocks in file order, and where each one is. */
  method GatherOrphans(s: Section, r: Rules) returns (blocks: seq<Block>, places: seq<Place>)
    ensures blocks == BlocksFrom(s, r, 0) && places == PlacesFrom(s, r, 0)
  {
    blocks, places := [], [];
    hide *;
    for i := 0 to |s.keys|
      invariant blocks + BlocksFrom(s, r, i) == BlocksFrom(s, r, 0)
      invariant places + PlacesFrom(s, r, i) == PlacesFrom(s, r, 0)
    {
      var found := OrphansInText(s.keys[i].prefix, r.managed(s.keys[i].flag));
      Gathered(s, r, i);
      Assoc(blocks, found, BlocksFrom(s, r, i + 1));
      Assoc(places, PlacesIn(Some(i), 0, |found|), PlacesFrom(s, r, i + 1));
      blocks := blocks + found;
      places := places + PlacesIn(Some(i), 0, |found|);
    }
    GatheredLast(s, r);
    var found := OrphansInText(s.tail, false);
    blocks := blocks + found;
    places := places + PlacesIn(None, 0, |found|);
  }

  /** find_orphan: the first gathered block tagged for the flag, else the first untagged fit. */
  method LocateOrphan(s: Section, r: Rules, flag: string) returns (place: Option<Place>)
    ensures place == FindOrphan(s, r, flag)
  {
    var blocks, places := GatherOrphans(s, r);
    FirstGathered(s, r, TaggedFor(flag), 0);
    FirstGathered(s, r, UntaggedFor(r, flag), 0);
    hide BlocksFrom, PlacesFrom, FirstPlace, FirstIn;
    var n := FirstIn(blocks, TaggedFor(flag));
    if n == |blocks| {
      n := FirstIn(blocks, UntaggedFor(r, flag));
    }
    place := if n < |blocks| then Some(places[n]) else None;
  }

  /** An untagged block all of whose values the flag takes. */
  predicate Suits(b: Block, r: Rules, flag: string) {
    b.tag.None? && forall i | 0 <= i < |b.entries| :: r.valid(flag, b.entries[i].value)
  }

  /** The n-th block is the flag's: the first one tagged for it, or, when none is, the first that suits. */
  predicate Attributed(bs: seq<Block>, r: Rules, flag: string, n: nat) {
    n < |bs| &&
    if bs[n].tag == Some(flag) then forall m | 0 <= m < n :: bs[m].tag != Some(flag)
    else
      && (forall m | 0 <= m < |bs| :: bs[m].tag != Some(flag))
      && Suits(bs[n], r, flag) && forall m | 0 <= m < n :: !Suits(bs[m], r, flag)
  }

  lemma TaggedComesFirst(bs: seq<Block>, r: Rules, flag: string, n: nat)
    requires Attributed(bs, r, flag, n)
    ensures var k := FirstIn(bs, TaggedFor(flag));
      if k < |bs| then n == k else FirstIn(bs, UntaggedFor(r, flag)) == n
  {
    hide FirstIn;
    var j := FirstIn(bs, UntaggedFor(r, flag));
    if j < |bs| {
      assert Suits(bs[j], r, flag);
    }
    assert UntaggedFor(r, flag)(bs[n]) <==> Suits(bs[n], r, flag);
  }

  lemma SomeIsAttributed(bs: seq<Block>, r: Rules, flag: string)
    requires FirstIn(bs, TaggedFor(flag)) < |bs| || FirstIn(bs, UntaggedFor(r, flag)) < |bs|
    ensures exists n: nat :: Attributed(bs, r, flag, n)
  {
    hide FirstIn;
    var k, j := FirstIn(bs, TaggedFor(flag)), FirstIn(bs, UntaggedFor(r, flag));
    if k < |bs| {
      assert Attributed(bs, r, flag, k);
    } else {
      assert forall m | 0 <= m < j :: !UntaggedFor(r, flag)(bs[m]);
      assert forall m | 0 <= m < |bs| :: UntaggedFor(r, flag)(bs[m]) <==> Suits(bs[m], r, flag);
      assert forall m | 0 <= m < |bs| :: !TaggedFor(flag)(bs[m]);
      assert Attributed(bs, r, flag, j);
    }
  }

  /** In any section, well-formed or not, an absent key is given the first block in file order that is
    * tagged for it, and only when there is none the first untagged one whose values it takes. */
  lemma FindsTheAttributed(s: Section, r: Rules, flag: string)
    ensures |PlacesFrom(s, r, 0)| == |BlocksFrom(s, r, 0)|
    ensures FindOrphan(s, r, flag).Some? <==> exists n: nat :: Attributed(BlocksFrom(s, r, 0), r, flag, n)
    ensures forall n: nat | Attributed(BlocksFrom(s, r, 0), r, flag, n) :: FindOrphan(s, r, flag) == Some(PlacesFrom(s, r, 0)[n])
  {
    FirstGathered(s, r, TaggedFor(flag), 0);
    FirstGathered(s, r, UntaggedFor(r, flag), 0);
    hide BlocksFrom, PlacesFrom, FirstPlace, FirstIn, Attributed;
    var bs := BlocksFrom(s, r, 0);
    forall n: nat | Attributed(bs, r, flag, n) ensures FindOrphan(s, r, flag) == Some(PlacesFrom(s, r, 0)[n]) {
      TaggedComesFirst(bs, r, flag, n);
      AttributedIsThere(bs, r, flag, n);
    }
    if FindOrphan(s, r, flag).Some? {
      SomeIsAttributed(bs, r, flag);
    }
  }

  lemma AttributedIsThere(bs: seq<Block>, r: Rules, flag: string, n: nat)
    requires Attributed(bs, r, flag, n)
    ensures n < |bs|
  {
  }

  // ----- Adopting

  /** adopt_orphan: finds the flag's block, cuts it out of the text it is in and strips its tag. */
  method AdoptOrphan(s: Section, r: Rules, flag: string) returns (section: Section, prefix: Option<Text>)
    ensures Adoption(section, prefix) == Adopt(s, r, flag)
  {
    section, prefix := s, None;
    var place := LocateOrphan(s, r, flag);
    if place.Some? {
      var t := HolderText(s, place.value);
      var runs := ScanRuns(AllLines(t));
      if place.value.k < |runs| {
        var without, block := ExciseRun(t, place.value.k);
        section := WithHolder(s, place.value, without);
        prefix := Some(Text(WithoutTag(block, flag), Blank));
      }
    }
  }

  // ----- The document

  datatype SetOutcome = Invalid | Unchanged(value: string) | Stored(replaced: Option<string>)

  datatype UnsetOutcome = Removed(value: string) | AlreadyDefault | RemovedUnknown(value: string) | UnknownKey

  datatype RevertOutcome = NotInRegistry | NoHistory | NoEntryAt | NoLongerValid(value: string) | Restored(value: string, replaced: Option<string>)

  class Document {
    const registry: Registry
    var sections: seq<Named>

    constructor (registry: Registry, sections: seq<Named>)
      ensures this.registry == registry && this.sections == sections
    {
      this.registry := registry;
      this.sections := sections;
    }

    /** The value a key has in the file. */
    function Current(section: string, flag: string): Option<string>
      reads this
    {
      var i := Position(sections, section);
      if i < |sections| && HasKey(sections[i].section.keys, flag)
      then Some(sections[i].section.keys[IndexOf(sections[i].section.keys, flag)].value) else None
    }

    /** The earlier values the file holds for a key, newest first. */
    function History(section: string, flag: string): seq<WasEntry>
      reads this
    {
      var i := Position(sections, section);
      if i < |sections| then KeyStack(sections[i].section, registry(section), flag) else []
    }

    /** set: banks the value a key had, or gives an unset key the history it left behind. */
    method SetValue(section: string, flag: string, value: string, now: string) returns (outcome: SetOutcome)
      modifies this
      ensures sections == Apply(old(sections), registry, SetOp(section, flag, value, now))
      ensures outcome.Stored? ==> outcome.replaced == old(Current(section, flag))
      ensures !outcome.Stored? ==> sections == old(sections)
      ensures outcome.Invalid? <==> !registry(section).managed(flag) || !registry(section).valid(flag, value)
      ensures outcome.Unchanged? <==> !outcome.Invalid? && match old(Current(section, flag))
        case Some(v) => registry(section).same(flag, v, value)
        case None => false
      ensures outcome.Unchanged? ==> old(Current(section, flag)) == Some(outcome.value)
    {
      hide Split, RenderStackBlock, FindOrphan, Adopt, Capped, Without, Chosen, BlockIn;
      var r := registry(section);
      if !r.managed(flag) || !r.valid(flag, value) {
        return Invalid;
      }
      CreatedIsEmpty(sections, section);
      var ready := WithSection(sections, section);
      var i := Position(ready, section);
      var s := ready[i].section;
      var j := IndexOf(s.keys, flag);
      if j < |s.keys| {
        var k := s.keys[j];
        if r.same(flag, k.value, value) {
          return Unchanged(k.value);
        }
        var prefix := k.prefix;
        if SingleLine(k.value) {
          var head, stack, indent := SplitBottomStack(k.prefix);
          prefix := RenderStackBlock(head, Capped([WasEntry(k.value, now)] + stack), indent);
        }
        s := s.(keys := s.keys[j := KeyItem(flag, prefix, value)]);
        outcome := Stored(Some(k.value));
      } else {
        var rest, prefix := AdoptOrphan(s, r, flag);
        s := rest.(keys := rest.keys + [KeyItem(flag, if prefix.Some? then prefix.value else EMPTY, value)]);
        outcome := Stored(None);
      }
      sections := ready[i := ready[i].(section := s)];
    }

    /** unset: removes the key and leaves its comments, and a known key's history, where it was. */
    method UnsetValue(section: string, flag: string, now: string) returns (outcome: UnsetOutcome)
      modifies this
      ensures sections == Apply(old(sections), registry, UnsetOp(section, flag, now))
      ensures match old(Current(section, flag))
        case Some(v) => outcome == if registry(section).managed(flag) then Removed(v) else RemovedUnknown(v)
        case None => outcome == (if registry(section).managed(flag) then AlreadyDefault else UnknownKey)
    {
      hide Split, RenderOrphanBlock, AttachBlock, Capped;
      var i, known := Position(sections, section), registry(section).managed(flag);
      if i == |sections| {
        return if known then AlreadyDefault else UnknownKey;
      }
      var s := sections[i].section;
      var j := IndexOf(s.keys, flag);
      if j == |s.keys| {
        return if known then AlreadyDefault else UnknownKey;
      }
      var k := s.keys[j];
      var block := Unindented(k.prefix);
      if known && SingleLine(k.value) {
        var head, stack, _ := SplitBottomStack(block);
        block := RenderOrphanBlock(head, flag, Capped([WasEntry(k.value, now)] + stack));
      }
      s := AttachBlock(s.(keys := s.keys[..j] + s.keys[j + 1..]), j, block, i + 1 < |sections|);
      sections := sections[i := sections[i].(section := s)];
      outcome := if known then Removed(k.value) else RemovedUnknown(k.value);
    }

    /** revert: the newest entry, or the one at a timestamp, becomes the value again. */
    method RevertValue(section: string, flag: string, to: Option<string>, now: string) returns (outcome: RevertOutcome)
      modifies this
      ensures sections == Apply(old(sections), registry, RevertOp(section, flag, to, now))
      ensures outcome.Restored? ==> outcome.replaced == old(Current(section, flag))
      ensures !outcome.Restored? ==> sections == old(sections)
      ensures outcome.NotInRegistry? <==> !registry(section).managed(flag)
      ensures outcome.NoHistory? <==> registry(section).managed(flag) && old(History(section, flag)) == []
      ensures outcome.NoEntryAt? <==> registry(section).managed(flag) && old(History(section, flag)) != [] &&
                                      forall i: nat :: !Wanted(old(History(section, flag)), to, i)
      ensures outcome.Restored? || outcome.NoLongerValid? ==>
              exists i: nat :: Wanted(old(History(section, flag)), to, i) && old(History(section, flag))[i].value == outcome.value
      ensures outcome.Restored? ==> registry(section).valid(flag, outcome.value)
      ensures outcome.NoLongerValid? ==> !registry(section).valid(flag, outcome.value)
    {
      hide Split, RenderStackBlock, FindOrphan, Adopt, Capped, Without, Chosen, BlockIn, KeyStack, Wanted;
      var i, r := Position(sections, section), registry(section);
      if !r.managed(flag) {
        return NotInRegistry;
      }
      if i == |sections| {
        return NoHistory;
      }
      var s := sections[i].section;
      var j := IndexOf(s.keys, flag);
      var stack := StackOf(s, r, flag);
      if stack == [] {
        return NoHistory;
      }
      var c := Chosen(stack, to);
      ChosenIsWanted(stack, to);
      if c == |stack| {
        return NoEntryAt;
      }
      var value := stack[c].value;
      if !r.valid(flag, value) {
        return NoLongerValid(value);
      }
      var rest := Without(stack, c);
      if j < |s.keys| {
        var k := s.keys[j];
        if SingleLine(k.value) {
          rest := Capped([WasEntry(k.value, now)] + rest);
        }
        var head, _, indent := SplitBottomStack(k.prefix);
        s := s.(keys := s.keys[j := KeyItem(flag, RenderStackBlock(head, rest, indent), value)]);
        outcome := Restored(value, Some(k.value));
      } else {
        var section', prefix := AdoptOrphan(s, r, flag);
        var head, _, indent := SplitBottomStack(if prefix.Some? then prefix.value else EMPTY);
        s := section'.(keys := section'.keys + [KeyItem(flag, RenderStackBlock(head, rest, indent), value)]);
        outcome := Restored(value, None);
      }
      sections := sections[i := sections[i].(section := s)];
    }
  }

  /** key_stack. */
  method StackOf(s: Section, r: Rules, flag: string) returns (stack: seq<WasEntry>)
    ensures stack == KeyStack(s, r, flag)
  {
    var j := IndexOf(s.keys, flag);
    if j < |s.keys| {
      var _, own, _ := SplitBottomStack(s.keys[j].prefix);
      return own;
    }
    var place := LocateOrphan(s, r, flag);
    stack := if place.Some? then BlockIn(s, r, place.value).entries else [];
  }
}
