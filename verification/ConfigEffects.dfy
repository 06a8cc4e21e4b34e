/** What one command does to the key it names, in terms of values and stamps. */
module ConfigEffects {
  import opened ConfigHistory
  import opened ConfigRefinement
  import opened ConfigRun
  import opened ConfigSection
  import opened HistoryBlocks
  import opened HistoryText
  import opened Wrappers

  /** The entry a revert is asked for: the newest, or the newest of those with the timestamp. */
  predicate Wanted(stack: seq<WasEntry>, to: Option<string>, i: nat) {
    i < |stack| &&
    match to
    case None => i == 0
    case Some(ts) => stack[i].timestamp == ts && forall j | 0 <= j < i :: stack[j].timestamp != ts
  }

  lemma {:induction false} ChosenIsWanted(stack: seq<WasEntry>, to: Option<string>)
    ensures Chosen(stack, to) < |stack| <==> exists i: nat :: Wanted(stack, to, i)
    ensures forall i: nat :: Wanted(stack, to, i) <==> i == Chosen(stack, to) < |stack|
  {
    if stack != [] {
      match to
      case None =>
        assert Wanted(stack, to, 0);
      case Some(ts) =>
        var below := stack[1..];
        ChosenIsWanted(below, to);
        if stack[0].timestamp == ts {
          assert Wanted(stack, to, 0);
        } else {
          forall i: nat ensures Wanted(stack, to, i) <==> i > 0 && Wanted(below, to, i - 1) {
            if i > 0 && Wanted(below, to, i - 1) {
              assert forall j | 0 < j < i :: stack[j] == below[j - 1];
            }
            if i > 0 && Wanted(stack, to, i) {
              assert forall j | 0 <= j < i - 1 :: below[j] == stack[j + 1];
            }
          }
          if Chosen(below, to) < |below| {
            assert Wanted(stack, to, Chosen(below, to) + 1);
          }
        }
    }
  }

  /** The five newest. */
  predicate NewestOf(all: seq<WasEntry>, stack: seq<WasEntry>) {
    stack <= all && |stack| == if |all| <= 5 then |all| else 5
  }

  /** The stack after a value was replaced or removed: what it held before joins it on top. */
  predicate Banks(k: KeyState, rest: seq<WasEntry>, now: string, stack: seq<WasEntry>) {
    match k.current
    case Some(value) => NewestOf([WasEntry(value, now)] + rest, stack)
    case None => stack == rest
  }

  lemma BankedBanks(k: KeyState, rest: seq<WasEntry>, now: string)
    ensures Banks(k, rest, now, Banked(k, rest, now))
  {
  }

  lemma SameSection(doc: seq<Named>, i: nat)
    requires i < |doc|
    ensures doc[i := doc[i].(section := doc[i].section)] == doc
  {
  }

  lemma NothingOpened(doc: seq<Named>, g: Registry, op: Op)
    requires Position(doc, op.section) < |doc|
    ensures Opened(doc, g, op) == doc
  {
  }

  lemma NothingApplied(doc: seq<Named>, g: Registry, op: Op)
    requires var i := Position(doc, op.section);
      i < |doc| && ApplyTo(doc[i].section, g(op.section), op, i + 1 < |doc|) == doc[i].section
    ensures Apply(doc, g, op) == doc
  {
    hide ApplyTo, Position, Opened;
    NothingOpened(doc, g, op);
    SameSection(doc, Position(doc, op.section));
  }

  /** A revert makes the wanted entry's value current if it still validates, takes exactly that entry
    * out of the stack, and banks the value it replaces. */
  lemma RevertTakesTheEntry(doc: seq<Named>, g: Registry, section: string, flag: string, to: Option<string>, now: string, i: nat)
    requires SoundDoc(doc, g) && g(section).managed(flag) && Position(doc, section) < |doc|
    requires Wanted(StateAt(doc, g, section, flag).stack, to, i)
    ensures var k, doc' := StateAt(doc, g, section, flag), Apply(doc, g, RevertOp(section, flag, to, now));
      if g(section).valid(flag, k.stack[i].value) then
        && Position(doc', section) < |doc'|
        && StateAt(doc', g, section, flag).current == Some(k.stack[i].value)
        && Banks(k, k.stack[..i] + k.stack[i + 1..], now, StateAt(doc', g, section, flag).stack)
      else doc' == doc
  {
    hide SoundDoc, StateAt, Apply, Position, Banks, Banked, Chosen, Wanted;
    var op, k := RevertOp(section, flag, to, now), StateAt(doc, g, section, flag);
    ChosenIsWanted(k.stack, to);
    if g(section).valid(flag, k.stack[i].value) {
      RevertIsProper(doc, op);
      ApplyRefines(doc, g, op, section, flag);
      BankedBanks(k, Without(k.stack, i), now);
    } else {
      RevertRefused(doc, g, section, flag, to, now);
    }
  }

  lemma RevertIsProper(doc: seq<Named>, op: Op)
    requires !op.SetOp?
    ensures Proper(doc, op)
  {
  }

  lemma RevertRefused(doc: seq<Named>, g: Registry, section: string, flag: string, to: Option<string>, now: string)
    requires Position(doc, section) < |doc|
    requires var stack := StateAt(doc, g, section, flag).stack;
      var c := Chosen(stack, to); c >= |stack| || !g(section).valid(flag, stack[c].value)
    ensures Apply(doc, g, RevertOp(section, flag, to, now)) == doc
  {
    hide Position, Chosen, KeyStack, Adopt, Apply;
    NothingApplied(doc, g, RevertOp(section, flag, to, now));
  }

  /** A revert to a stamp no entry has, or without history, changes nothing. */
  lemma RevertToNothing(doc: seq<Named>, g: Registry, section: string, flag: string, to: Option<string>, now: string)
    requires Position(doc, section) < |doc|
    requires forall i: nat :: !Wanted(StateAt(doc, g, section, flag).stack, to, i)
    ensures Apply(doc, g, RevertOp(section, flag, to, now)) == doc
  {
    hide Position, StateAt, Apply, Chosen, Wanted;
    ChosenIsWanted(StateAt(doc, g, section, flag).stack, to);
    RevertRefused(doc, g, section, flag, to, now);
  }

  /** A set makes its value current and banks the one it replaces, unless the value is not valid or the
    * same as before: then it changes nothing. */
  lemma SetTakesEffect(doc: seq<Named>, g: Registry, section: string, flag: string, value: string, now: string)
    requires SoundDoc(doc, g) && g(section).managed(flag) && Position(doc, section) < |doc| && SingleLine(value)
    ensures var k, doc' := StateAt(doc, g, section, flag), Apply(doc, g, SetOp(section, flag, value, now));
      if !g(section).valid(flag, value) || (k.current.Some? && g(section).same(flag, k.current.value, value)) then doc' == doc
      else
        && Position(doc', section) < |doc'|
        && StateAt(doc', g, section, flag).current == Some(value)
        && Banks(k, k.stack, now, StateAt(doc', g, section, flag).stack)
  {
    hide SoundDoc, StateAt, Apply, Position, Banks, Banked, SingleLine;
    var op, k := SetOp(section, flag, value, now), StateAt(doc, g, section, flag);
    if !g(section).valid(flag, value) || (k.current.Some? && g(section).same(flag, k.current.value, value)) {
      SetRefused(doc, g, section, flag, value, now);
    } else {
      ApplyRefines(doc, g, op, section, flag);
      BankedBanks(k, k.stack, now);
    }
  }

  lemma SetRefused(doc: seq<Named>, g: Registry, section: string, flag: string, value: string, now: string)
    requires Position(doc, section) < |doc|
    requires var k := StateAt(doc, g, section, flag);
      !g(section).valid(flag, value) || (k.current.Some? && g(section).same(flag, k.current.value, value))
    ensures Apply(doc, g, SetOp(section, flag, value, now)) == doc
  {
    hide Position, KeyStack, Adopt, Apply;
    NothingApplied(doc, g, SetOp(section, flag, value, now));
  }

  /** An unset leaves no value and banks the one there was; without one it changes nothing. */
  lemma UnsetTakesEffect(doc: seq<Named>, g: Registry, section: string, flag: string, now: string)
    requires SoundDoc(doc, g) && g(section).managed(flag) && Position(doc, section) < |doc|
    ensures var k, doc' := StateAt(doc, g, section, flag), Apply(doc, g, UnsetOp(section, flag, now));
      if k.current.None? then doc' == doc
      else
        && Position(doc', section) < |doc'|
        && StateAt(doc', g, section, flag).current == None
        && Banks(k, k.stack, now, StateAt(doc', g, section, flag).stack)
  {
    hide SoundDoc, StateAt, Apply, Position, Banks, Banked;
    var op, k := UnsetOp(section, flag, now), StateAt(doc, g, section, flag);
    if k.current.None? {
      UnsetRefused(doc, g, section, flag, now);
    } else {
      RevertIsProper(doc, op);
      ApplyRefines(doc, g, op, section, flag);
      BankedBanks(k, k.stack, now);
    }
  }

  lemma UnsetRefused(doc: seq<Named>, g: Registry, section: string, flag: string, now: string)
    requires Position(doc, section) < |doc| && StateAt(doc, g, section, flag).current.None?
    ensures Apply(doc, g, UnsetOp(section, flag, now)) == doc
  {
    hide Position, KeyStack, Apply, LeftBehind, AttachBlock;
    NothingApplied(doc, g, UnsetOp(section, flag, now));
  }

  /** No command changes what the document says about another key. */
  lemma OthersAreUntouched(doc: seq<Named>, g: Registry, op: Op, section: string, flag: string)
    requires SoundDoc(doc, g) && g(section).managed(flag) && Position(doc, section) < |doc|
    requires Proper(doc, op) && !(op.section == section && op.flag == flag)
    ensures Position(Apply(doc, g, op), section) < |Apply(doc, g, op)|
    ensures StateAt(Apply(doc, g, op), g, section, flag) == StateAt(doc, g, section, flag)
  {
    hide SoundDoc, StateAt, Apply, Position, Proper;
    ApplyRefines(doc, g, op, section, flag);
  }
}
