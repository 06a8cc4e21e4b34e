/** What a `set` does to the other sections when it creates a missing one. */
module ConfigCreation {
  import opened ConfigHistory
  import opened ConfigRefinement
  import opened ConfigRun
  import opened ConfigSection
  import opened HistoryBlocks
  import opened HistoryHolders
  import opened HistoryText
  import opened TaggedRuns
  import opened Wrappers

  // The new section's header is written below the file's last key, and so above the file's trailing
  // text: the blocks there, left by keys of the section that was last, are now the new section's.

  lemma {:induction false} BlocksHoldEntries(ls: seq<Line>, prev: Line)
    ensures forall i | 0 <= i < |Blocks(ls, prev)| :: Blocks(ls, prev)[i].entries != []
  {
    if ls != [] {
      BlocksHoldEntries(Init(ls), prev);
    }
  }

  const BLANK_TAIL := Text([Blank], Blank)

  lemma BlankTailHoldsNothing()
    ensures Blocks(AllLines(BLANK_TAIL), Blank) == [] && Separated(AllLines(BLANK_TAIL), Free)
  {
    BlanksHoldNothing(AllLines(BLANK_TAIL), Blank);
    BlanksSeparate(AllLines(BLANK_TAIL), Free);
  }

  lemma GoodAbove(a: seq<Block>, b: seq<Block>, keys: seq<KeyItem>, r: Rules)
    requires GoodBlocks(a + b, keys, r)
    ensures GoodBlocks(a, keys, r)
    ensures forall i | 0 <= i < |b| :: b[i].tag.Some? && r.managed(b[i].tag.value) && !HasKey(keys, b[i].tag.value)
    ensures forall i, j | 0 <= i < |a| && 0 <= j < |b| :: a[i].tag != b[j].tag
  {
    var all := a + b;
    assert forall i | 0 <= i < |a| :: a[i] == all[i];
    assert forall i | 0 <= i < |b| :: b[i] == all[|a| + i];
  }

  /** The section that was last, without the trailing text, is still well-formed; its keys' histories
    * are all kept if and only if the trailing text held none. */
  lemma TailLost(s: Section, r: Rules)
    requires WellFormed(s, r)
    ensures var s' := s.(tail := BLANK_TAIL);
      && WellFormed(s', r)
      && ((forall f | r.managed(f) :: StateOf(s', r, f) == StateOf(s, r, f)) <==> TailBlocks(s) == [])
  {
    var s', a, b := s.(tail := BLANK_TAIL), KeyBlocks(s.keys, r), TailBlocks(s);
    BlankTailHoldsNothing();
    assert TailBlocks(s') == [];
    assert AllBlocks(s', r) == a by {
      assert a + [] == a;
    }
    hide KeyBlocks, TailBlocks, StateOf, Separated, Blocks, GoodKeys;
    GoodAbove(a, b, s.keys, r);
    if b == [] {
      assert a + b == a;
      forall f | r.managed(f) ensures StateOf(s', r, f) == StateOf(s, r, f) {
        StateIsFound(s, r, f);
        StateIsFound(s', r, f);
      }
    } else {
      TaggedHistoryLost(s, s', r, a, b);
    }
  }

  lemma TaggedHistoryLost(s: Section, s': Section, r: Rules, a: seq<Block>, b: seq<Block>)
    requires b == TailBlocks(s) && b != [] && AllBlocks(s, r) == a + b && AllBlocks(s', r) == a && s'.keys == s.keys
    requires GoodBlocks(a + b, s.keys, r) && GoodBlocks(a, s.keys, r)
    requires b[0].tag.Some? && !HasKey(s.keys, b[0].tag.value)
    requires forall i | 0 <= i < |a| :: a[i].tag != b[0].tag
    ensures var f := b[0].tag.value; r.managed(f) && StateOf(s', r, f) != StateOf(s, r, f)
  {
    var f := b[0].tag.value;
    BlocksHoldEntries(AllLines(s.tail), Blank);
    assert (a + b)[|a|] == b[0];
    hide Blocks, AllBlocks, StateOf, GoodBlocks;
    LookupFinds(a, f);
    LookupConcat(a, b, f);
    StateIsFound(s, r, f) by {
      assert AllBlocks(s, r) == a + b;
    }
    StateIsFound(s', r, f);
  }

  /** What the trailing text held for a flag of the section that was last is the new section's flag of
    * that name's history. */
  lemma CreatedTakes(tail: Text, r: Rules, flag: string)
    requires Lookup(Blocks(AllLines(tail), Blank), flag).Some?
    ensures StateOf(Section([], tail), r, flag) == KeyState(None, Lookup(Blocks(AllLines(tail), Blank), flag).value)
  {
    hide Blocks, Lookup;
    FirstIsLookup(Blocks(AllLines(tail), Blank), flag);
  }

  lemma {:induction false} FirstIsLookup(bs: seq<Block>, flag: string)
    ensures var k := FirstIn(bs, TaggedFor(flag));
      Lookup(bs, flag) == if k < |bs| then Some(bs[k].entries) else None
  {
    if bs != [] && bs[0].tag != Some(flag) {
      FirstIsLookup(bs[1..], flag);
    }
  }

  /** Creating a section keeps what the file says about every other key if and only if the trailing
    * text holds no history. */
  lemma CreationKeeps(doc: seq<Named>, g: Registry, name: string)
    requires SoundDoc(doc, g) && doc != [] && Position(doc, name) == |doc| && Position(doc, doc[|doc| - 1].name) == |doc| - 1
    ensures var doc', last := WithSection(doc, name), doc[|doc| - 1];
      && (forall section :: Position(doc, section) < |doc| ==> Position(doc', section) == Position(doc, section))
      && ((forall section, flag | Position(doc, section) < |doc| && g(section).managed(flag) ::
             StateAt(doc', g, section, flag) == StateAt(doc, g, section, flag))
          <==> TailBlocks(last.section) == [])
  {
    var doc', n := WithSection(doc, name), |doc| - 1;
    var last := doc[n];
    forall section | Position(doc, section) < |doc| ensures Position(doc', section) == Position(doc, section) {
      PositionBefore(doc, last.section.(tail := BLANK_TAIL), Named(name, Section([], last.section.tail)), section);
    }
    assert Sound(last.section, g(last.name));
    TailLost(last.section, g(last.name));
    hide StateOf, TailBlocks, Sound, WellFormed;
    if TailBlocks(last.section) == [] {
      forall section, flag | Position(doc, section) < |doc| && g(section).managed(flag)
        ensures StateAt(doc', g, section, flag) == StateAt(doc, g, section, flag)
      {
        assert Position(doc, section) == n ==> section == last.name;
      }
    } else {
      var flag :| g(last.name).managed(flag)
               && StateOf(last.section.(tail := BLANK_TAIL), g(last.name), flag) != StateOf(last.section, g(last.name), flag);
      assert StateAt(doc', g, last.name, flag) != StateAt(doc, g, last.name, flag);
    }
  }

  lemma PositionBefore(doc: seq<Named>, s: Section, created: Named, name: string)
    requires doc != [] && Position(doc, name) < |doc|
    ensures Position(doc[|doc| - 1 := doc[|doc| - 1].(section := s)] + [created], name) == Position(doc, name)
    decreases |doc|
  {
    var n := |doc| - 1;
    PositionKept(doc, n, s, name);
    PositionAbove(doc[n := doc[n].(section := s)], created, name);
  }

  lemma {:induction false} PositionAbove(doc: seq<Named>, created: Named, name: string)
    requires Position(doc, name) < |doc|
    ensures Position(doc + [created], name) == Position(doc, name)
  {
    if doc[0].name != name {
      assert (doc + [created])[1..] == doc[1..] + [created];
      PositionAbove(doc[1..], created, name);
    }
  }

  lemma NoBlocksNoHistory(s: Section, r: Rules, f: string)
    requires AllBlocks(s, r) == [] && s.keys == []
    ensures StateOf(s, r, f).stack == []
  {
    assert GoodBlocks(AllBlocks(s, r), s.keys, r);
    hide AllBlocks, StateOf;
    StateIsFound(s, r, f);
  }

  lemma CreatedIsSound(tail: Text, r: Rules)
    requires Blocks(AllLines(tail), Blank) == [] && Separated(AllLines(tail), Free)
    ensures Sound(Section([], tail), r)
  {
    var s := Section([], tail);
    assert AllBlocks(s, r) == [] + Blocks(AllLines(tail), Blank);
    assert WellFormed(s, r);
    hide AllBlocks, StateOf, WellFormed, Blocks, Separated;
    forall f | r.managed(f) ensures OneLine(StateOf(s, r, f).stack) {
      NoBlocksNoHistory(s, r, f);
    }
  }

  /** And then the file stays one the theorems about runs speak of. */
  lemma CreationStaysSound(doc: seq<Named>, g: Registry, name: string)
    requires SoundDoc(doc, g) && doc != [] && Position(doc, name) == |doc| && TailBlocks(doc[|doc| - 1].section) == []
    ensures SoundDoc(WithSection(doc, name), g)
  {
    hide Sound, TailBlocks;
    var n := |doc| - 1;
    LastParts(doc[n].section, g(doc[n].name), g(name));
    var doc' := WithSection(doc, name);
    forall i | 0 <= i < |doc'| ensures Sound(doc'[i].section, g(doc'[i].name)) {
      assert i < n ==> doc'[i] == doc[i];
    }
  }

  lemma LastParts(s: Section, r: Rules, created: Rules)
    requires Sound(s, r) && TailBlocks(s) == []
    ensures Sound(s.(tail := BLANK_TAIL), r) && Sound(Section([], s.tail), created)
  {
    TailIsSeparated(s, r);
    hide StateOf, Blocks, WellFormed, OneLine, Separated;
    TailLost(s, r);
    CreatedIsSound(s.tail, created);
  }

  lemma TailIsSeparated(s: Section, r: Rules)
    requires WellFormed(s, r)
    ensures Separated(AllLines(s.tail), Free)
  {
  }
}
