/** Whole runs of `set`, `unset` and `revert` over a document of several sections. */
module ConfigRun {
  import opened ConfigHistory
  import opened ConfigRefinement
  import opened ConfigSection
  import opened HistoryBlocks
  import opened HistoryStack
  import opened HistoryText
  import opened TaggedRuns
  import opened Wrappers

  /** The tail of a section is the header prefix of the next one, or the document's trailing text:
    * which section a tail block belongs to is decided by position. */
  datatype Named = Named(name: string, section: Section)

  datatype Op =
    | SetOp(section: string, flag: string, value: string, now: string)
    | UnsetOp(section: string, flag: string, now: string)
    | RevertOp(section: string, flag: string, to: Option<string>, now: string)

  type Registry = string -> Rules

  function Position(doc: seq<Named>, name: string): (i: nat)
    ensures i <= |doc| && (i < |doc| ==> doc[i].name == name)
  {
    if doc == [] || doc[0].name == name then 0 else 1 + Position(doc[1..], name)
  }

  function ApplyTo(s: Section, r: Rules, op: Op, inHeader: bool): Section {
    match op
    case SetOp(_, flag, value, now) => SetKey(s, r, flag, value, now)
    case UnsetOp(_, flag, now) => UnsetKey(s, r, flag, now, inHeader)
    case RevertOp(_, flag, to, now) => RevertKey(s, r, flag, to, now)
  }

  /** section_table: a missing section is created at the end of the file. The document's trailing text
    * is now below it, and an empty line above its header. */
  function WithSection(doc: seq<Named>, name: string): seq<Named> {
    if Position(doc, name) < |doc| then doc
    else if doc == [] then [Named(name, Section([], EMPTY))]
    else
      var n := |doc| - 1;
      doc[n := doc[n].(section := doc[n].section.(tail := Text([Blank], Blank)))] + [Named(name, Section([], doc[n].section.tail))]
  }

  /** A valid `set` creates a missing section; `unset` and `revert` find nothing in one. */
  function Opened(doc: seq<Named>, g: Registry, op: Op): seq<Named> {
    if op.SetOp? && g(op.section).managed(op.flag) && g(op.section).valid(op.flag, op.value)
    then WithSection(doc, op.section) else doc
  }

  /** One command on the document. */
  function Apply(doc: seq<Named>, g: Registry, op: Op): seq<Named> {
    var ready := Opened(doc, g, op);
    var i := Position(ready, op.section);
    if i == |ready| then ready
    else ready[i := ready[i].(section := ApplyTo(ready[i].section, g(op.section), op, i + 1 < |ready|))]
  }

  function RunAll(doc: seq<Named>, g: Registry, ops: seq<Op>): seq<Named>
    decreases |ops|
  {
    if ops == [] then doc else RunAll(Apply(doc, g, ops[0]), g, ops[1..])
  }

  // ----- The abstract run

  predicate Addresses(op: Op, section: string, flag: string) {
    op.section == section && op.flag == flag
  }

  function StepState(k: KeyState, r: Rules, op: Op): KeyState {
    match op
    case SetOp(_, flag, value, now) => SetState(k, r, flag, value, now)
    case UnsetOp(_, _, now) => UnsetState(k, now)
    case RevertOp(_, flag, to, now) => RevertState(k, r, flag, to, now)
  }

  /** One key's own commands, in order, on its value and bounded stack; all others are skipped. */
  function Replay(k: KeyState, r: Rules, ops: seq<Op>, section: string, flag: string): KeyState
    decreases |ops|
  {
    if ops == [] then k
    else Replay(if Addresses(ops[0], section, flag) then StepState(k, r, ops[0]) else k, r, ops[1..], section, flag)
  }

  // ----- Refinement

  /** A well-formed section whose histories hold single-line values only. */
  ghost predicate Sound(s: Section, r: Rules) {
    WellFormed(s, r) && forall f | r.managed(f) :: OneLine(StateOf(s, r, f).stack)
  }

  ghost predicate SoundDoc(doc: seq<Named>, g: Registry) {
    forall i | 0 <= i < |doc| :: Sound(doc[i].section, g(doc[i].name))
  }

  /** A `set` that creates no section, of a value that renders on one line. */
  predicate Proper(doc: seq<Named>, op: Op) {
    op.SetOp? ==> SingleLine(op.value) && Position(doc, op.section) < |doc|
  }

  predicate NoWas(ls: seq<Line>) {
    forall i | 0 <= i < |ls| :: !ls[i].Was?
  }

  lemma {:induction false} NoWasNoBlocks(ls: seq<Line>, prev: Line)
    requires NoWas(ls)
    ensures Blocks(ls, prev) == []
  {
    if ls != [] {
      NoWasNoBlocks(Init(ls), prev);
    }
  }

  lemma {:induction false} NoWasSeparates(ls: seq<Line>)
    requires NoWas(ls)
    ensures Separated(ls, Free) && GapAfter(ls, Free) == Free
  {
    if ls != [] {
      NoWasSeparates(ls[1..]);
    }
  }

  /** A section edited by hand only: comments anywhere, but no history yet. */
  predicate Fresh(s: Section) {
    && DistinctFlags(s.keys) && NoWas(AllLines(s.tail))
    && forall i | 0 <= i < |s.keys| ::
         NoWas(AllLines(s.keys[i].prefix)) && IsWhite(s.keys[i].prefix.tail) && SingleLine(s.keys[i].value)
  }

  lemma FreshKey(k: KeyItem, managed: bool)
    requires NoWas(AllLines(k.prefix)) && IsWhite(k.prefix.tail) && SingleLine(k.value)
    ensures GoodKey(k, managed) && OrphansOf(k, managed) == [] && Split(k.prefix).stack == []
  {
    var t := k.prefix;
    assert Init(AllLines(t)) == t.lines;
    assert NoWas(t.lines) by {
      assert forall i | 0 <= i < |t.lines| :: t.lines[i] == AllLines(t)[i];
    }
    assert t.lines != [] ==> !t.lines[|t.lines| - 1].Was?;
    assert Split(t).stack == [] && Split(t).head.lines == t.lines;
    hide Split, Separated, GapAfter, Blocks;
    NoWasNoBlocks(t.lines, Blank);
    NoWasNoBlocks(AllLines(t), Blank);
    NoWasSeparates(t.lines);
    NoWasSeparates(AllLines(t));
  }

  lemma {:induction false} FreshBlocks(keys: seq<KeyItem>, r: Rules)
    requires forall i | 0 <= i < |keys| ::
      NoWas(AllLines(keys[i].prefix)) && IsWhite(keys[i].prefix.tail) && SingleLine(keys[i].value)
    ensures KeyBlocks(keys, r) == []
  {
    if keys != [] {
      FreshKey(keys[0], r.managed(keys[0].flag));
      hide OrphansOf, NoWas, AllLines, SingleLine;
      FreshBlocks(keys[1..], r);
    }
  }

  lemma FreshIsWellFormed(s: Section, r: Rules)
    requires Fresh(s)
    ensures WellFormed(s, r) && AllBlocks(s, r) == []
  {
    hide KeyBlocks, Blocks, Separated, AllLines, OrphansOf, Split, SingleLine, NoWas, GoodKey, IsWhite;
    FreshBlocks(s.keys, r);
    NoWasNoBlocks(AllLines(s.tail), Blank);
    NoWasSeparates(AllLines(s.tail));
    forall i | 0 <= i < |s.keys| ensures GoodKey(s.keys[i], r.managed(s.keys[i].flag)) {
      FreshKey(s.keys[i], r.managed(s.keys[i].flag));
    }
  }

  lemma FreshState(s: Section, r: Rules, flag: string)
    requires Fresh(s) && WellFormed(s, r) && AllBlocks(s, r) == []
    ensures StateOf(s, r, flag).stack == []
  {
    assert GoodBlocks(AllBlocks(s, r), s.keys, r);
    if HasKey(s.keys, flag) {
      FreshKey(s.keys[IndexOf(s.keys, flag)], true);
    }
    hide WellFormed, GoodBlocks, AllBlocks, Split, Fresh, StateOf;
    StateIsFound(s, r, flag);
  }

  /** Where runs may start: a file without history is sound, and every key's history is empty. */
  lemma FreshIsSound(s: Section, r: Rules)
    requires Fresh(s)
    ensures Sound(s, r)
    ensures forall f | r.managed(f) :: StateOf(s, r, f).stack == []
  {
    FreshIsWellFormed(s, r);
    hide WellFormed, AllBlocks, Fresh, StateOf;
    forall f | r.managed(f) ensures StateOf(s, r, f).stack == [] {
      FreshState(s, r, f);
    }
  }

  lemma StepRefines(s: Section, r: Rules, op: Op, inHeader: bool, other: string)
    requires Sound(s, r) && r.managed(other) && (op.SetOp? ==> SingleLine(op.value))
    ensures var s' := ApplyTo(s, r, op, inHeader);
      && WellFormed(s', r)
      && StateOf(s', r, other) == if other == op.flag then StepState(StateOf(s, r, other), r, op) else StateOf(s, r, other)
  {
    hide WellFormed, StateOf, SetKey, UnsetKey, RevertKey, SetState, UnsetState, RevertState;
    match op
    case SetOp(_, flag, value, now) => SetRefines(s, r, flag, value, now, other);
    case UnsetOp(_, flag, now) => UnsetRefines(s, r, flag, now, inHeader, other);
    case RevertOp(_, flag, to, now) =>
      if r.managed(flag) {
        RevertRefines(s, r, flag, to, now, other);
      } else {
        NoRevert(s, r, flag, to, now);
      }
  }

  lemma NoRevert(s: Section, r: Rules, flag: string, to: Option<string>, now: string)
    requires !r.managed(flag)
    ensures RevertKey(s, r, flag, to, now) == s
  {
    hide KeyStack, Adopt, Split;
  }

  lemma StepKeepsLines(k: KeyState, r: Rules, op: Op)
    requires OneLine(k.stack) && (k.current.Some? ==> SingleLine(k.current.value))
    ensures OneLine(StepState(k, r, op).stack)
  {
    hide Chosen, SingleLine;
  }

  lemma CurrentIsOneLine(s: Section, r: Rules, flag: string)
    requires WellFormed(s, r)
    ensures var k := StateOf(s, r, flag); k.current.Some? ==> SingleLine(k.current.value)
  {
    hide KeyStack, AllBlocks, SingleLine, GoodBlocks;
    assert HasKey(s.keys, flag) ==> GoodKey(s.keys[IndexOf(s.keys, flag)], r.managed(flag));
  }

  lemma StepKeepsSound(s: Section, r: Rules, op: Op, inHeader: bool)
    requires Sound(s, r) && (op.SetOp? ==> SingleLine(op.value))
    ensures Sound(ApplyTo(s, r, op, inHeader), r)
  {
    var s' := ApplyTo(s, r, op, inHeader);
    WellFormedAfter(s, r, op, inHeader);
    hide WellFormed, StateOf, ApplyTo, SingleLine, OneLine, StepState;
    forall f | r.managed(f) ensures OneLine(StateOf(s', r, f).stack) {
      StepRefines(s, r, op, inHeader, f);
      CurrentIsOneLine(s, r, f);
      StepKeepsLines(StateOf(s, r, f), r, op);
    }
  }

  lemma WellFormedAfter(s: Section, r: Rules, op: Op, inHeader: bool)
    requires Sound(s, r) && (op.SetOp? ==> SingleLine(op.value))
    ensures WellFormed(ApplyTo(s, r, op, inHeader), r)
  {
    hide WellFormed, StateOf, SingleLine, OneLine, StepState;
    if r.managed(op.flag) {
      StepRefines(s, r, op, inHeader, op.flag);
    } else if op.UnsetOp? {
      if HasKey(s.keys, op.flag) {
        UnsetLeaves(s, r, IndexOf(s.keys, op.flag), op.now, inHeader);
      }
    } else if op.RevertOp? {
      NoRevert(s, r, op.flag, op.to, op.now);
    }
  }

  lemma PositionKept(doc: seq<Named>, i: nat, s: Section, name: string)
    requires i < |doc|
    ensures Position(doc[i := doc[i].(section := s)], name) == Position(doc, name)
    decreases |doc|
  {
    var doc' := doc[i := doc[i].(section := s)];
    if i > 0 && doc[0].name != name {
      assert doc'[1..] == doc[1..][i - 1 := doc[1..][i - 1].(section := s)];
      PositionKept(doc[1..], i - 1, s, name);
    } else {
      assert i == 0 ==> doc'[1..] == doc[1..];
    }
  }

  /** What the document says about one key: `config get` and `config history`. */
  function StateAt(doc: seq<Named>, g: Registry, section: string, flag: string): KeyState
    requires Position(doc, section) < |doc|
  {
    StateOf(doc[Position(doc, section)].section, g(section), flag)
  }

  lemma ApplyIs(doc: seq<Named>, g: Registry, op: Op)
    requires Proper(doc, op)
    ensures var i := Position(doc, op.section);
      Apply(doc, g, op) ==
      if i == |doc| then doc
      else doc[i := doc[i].(section := ApplyTo(doc[i].section, g(op.section), op, i + 1 < |doc|))]
  {
    hide ApplyTo, SingleLine;
  }

  lemma SoundWhenReplaced(doc: seq<Named>, g: Registry, i: nat, s: Section)
    requires SoundDoc(doc, g) && i < |doc| && Sound(s, g(doc[i].name))
    ensures SoundDoc(doc[i := doc[i].(section := s)], g)
  {
    hide Sound;
  }

  lemma PositionsKept(doc: seq<Named>, i: nat, s: Section)
    requires i < |doc|
    ensures forall name :: Position(doc[i := doc[i].(section := s)], name) == Position(doc, name)
  {
    forall name ensures Position(doc[i := doc[i].(section := s)], name) == Position(doc, name) {
      PositionKept(doc, i, s, name);
    }
  }

  lemma SoundAt(doc: seq<Named>, g: Registry, name: string)
    requires SoundDoc(doc, g) && Position(doc, name) < |doc|
    ensures Sound(doc[Position(doc, name)].section, g(name))
  {
    hide Sound;
  }

  lemma StateWhenReplaced(doc: seq<Named>, g: Registry, i: nat, s: Section, section: string, flag: string)
    requires i < |doc| && Position(doc, section) < |doc|
    requires Position(doc[i := doc[i].(section := s)], section) == Position(doc, section)
    ensures StateAt(doc[i := doc[i].(section := s)], g, section, flag) ==
            if i == Position(doc, section) then StateOf(s, g(section), flag) else StateAt(doc, g, section, flag)
  {
    hide StateOf, Position;
  }

  lemma ApplyRefines(doc: seq<Named>, g: Registry, op: Op, section: string, flag: string)
    requires SoundDoc(doc, g) && Proper(doc, op) && g(section).managed(flag) && Position(doc, section) < |doc|
    ensures var doc' := Apply(doc, g, op);
      && SoundDoc(doc', g) && (forall name :: Position(doc', name) == Position(doc, name)) && |doc'| == |doc|
      && StateAt(doc', g, section, flag) ==
         var k := StateAt(doc, g, section, flag); if Addresses(op, section, flag) then StepState(k, g(section), op) else k
  {
    hide Sound, SoundDoc, StateOf, ApplyTo, StepState, SingleLine, Position, Apply;
    ApplyIs(doc, g, op);
    var i := Position(doc, op.section);
    if i < |doc| {
      var s, inHeader := doc[i].section, i + 1 < |doc|;
      var s' := ApplyTo(s, g(op.section), op, inHeader);
      SoundAt(doc, g, op.section);
      StepKeepsSound(s, g(op.section), op, inHeader);
      SoundWhenReplaced(doc, g, i, s');
      PositionsKept(doc, i, s');
      StateWhenReplaced(doc, g, i, s', section, flag);
      if op.section == section {
        StepRefines(s, g(section), op, inHeader, flag);
      }
    }
  }

  /** Every run of commands leaves each key's text history equal to replaying that key's own
    * commands on a value and a stack of at most five entries. Sections stay well-formed, so each
    * block an `unset` leaves is found again, by its own key only. */
  lemma {:induction false} RunRefines(doc: seq<Named>, g: Registry, ops: seq<Op>, section: string, flag: string)
    requires SoundDoc(doc, g) && g(section).managed(flag) && Position(doc, section) < |doc|
    requires forall i | 0 <= i < |ops| :: Proper(doc, ops[i])
    ensures var end := RunAll(doc, g, ops);
      && SoundDoc(end, g) && Position(end, section) < |end|
      && StateAt(end, g, section, flag) == Replay(StateAt(doc, g, section, flag), g(section), ops, section, flag)
    decreases |ops|
  {
    hide SoundDoc, StateAt, Apply, StepState;
    if ops != [] {
      ApplyRefines(doc, g, ops[0], section, flag);
      RunRefines(Apply(doc, g, ops[0]), g, ops[1..], section, flag);
    }
  }

  // ----- A created section

  lemma {:induction false} PositionAtEnd(doc: seq<Named>, created: Named, name: string)
    requires Position(doc, name) == |doc| && created.name == name
    ensures Position(doc + [created], name) == |doc|
  {
    if doc != [] {
      assert (doc + [created])[1..] == doc[1..] + [created];
      PositionAtEnd(doc[1..], created, name);
    }
  }

  lemma CreatedIsEmpty(doc: seq<Named>, name: string)
    ensures var doc' := WithSection(doc, name);
      && Position(doc', name) == Position(doc, name) < |doc'|
      && (Position(doc, name) == |doc| ==> |doc'| == |doc| + 1 && doc'[|doc|].section.keys == [])
  {
    var n := |doc| - 1;
    if Position(doc, name) == |doc| && doc != [] {
      var t := doc[n].section.(tail := Text([Blank], Blank));
      PositionKept(doc, n, t, name);
      PositionAtEnd(doc[n := doc[n].(section := t)], Named(name, Section([], doc[n].section.tail)), name);
    }
  }
}
