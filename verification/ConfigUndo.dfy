/** The undo laws of the config history, for one key of a document on which other keys' commands
  * may come in between.
  */
module ConfigUndo {
  import opened ConfigRefinement
  import opened ConfigRun
  import opened ConfigSection
  import opened HistoryBlocks
  import opened HistoryText
  import opened Wrappers

  // ----- Commands addressed to other keys do not matter

  predicate Elsewhere(ops: seq<Op>, section: string, flag: string) {
    forall i | 0 <= i < |ops| :: !Addresses(ops[i], section, flag)
  }

  lemma {:induction false} ReplayElsewhere(k: KeyState, r: Rules, ops: seq<Op>, rest: seq<Op>, section: string, flag: string)
    requires Elsewhere(ops, section, flag)
    ensures Replay(k, r, ops + rest, section, flag) == Replay(k, r, rest, section, flag)
    decreases |ops|
  {
    if ops == [] {
      assert ops + rest == rest;
    } else {
      assert (ops + rest)[1..] == ops[1..] + rest;
      ReplayElsewhere(k, r, ops[1..], rest, section, flag);
    }
  }

  /** Two commands on one key, among any commands on others, act on its state as if alone. */
  lemma ReplayTwo(k: KeyState, r: Rules, a: seq<Op>, op1: Op, b: seq<Op>, op2: Op, c: seq<Op>, section: string, flag: string)
    requires Elsewhere(a, section, flag) && Elsewhere(b, section, flag) && Elsewhere(c, section, flag)
    requires Addresses(op1, section, flag) && Addresses(op2, section, flag)
    ensures Replay(k, r, a + ([op1] + (b + ([op2] + c))), section, flag) == StepState(StepState(k, r, op1), r, op2)
  {
    var k1 := StepState(k, r, op1);
    var k2 := StepState(k1, r, op2);
    hide StepState;
    ReplayElsewhere(k, r, a, [op1] + (b + ([op2] + c)), section, flag);
    assert ([op1] + (b + ([op2] + c)))[1..] == b + ([op2] + c);
    ReplayElsewhere(k1, r, b, [op2] + c, section, flag);
    assert ([op2] + c)[1..] == c;
    assert c + [] == c;
    ReplayElsewhere(k2, r, c, [], section, flag);
  }

  // ----- The laws on one key's state

  function Values(stack: seq<WasEntry>): (vs: seq<string>)
    ensures |vs| == |stack| && forall i | 0 <= i < |vs| :: vs[i] == stack[i].value
  {
    if stack == [] then [] else [stack[0].value] + Values(stack[1..])
  }

  /** A key's current value and its earlier ones, without their timestamps. */
  predicate SameValues(a: KeyState, b: KeyState) {
    a.current == b.current && Values(a.stack) == Values(b.stack)
  }

  /** Whether a revert finds an entry and the entry still validates. */
  predicate Reverts(k: KeyState, r: Rules, flag: string, to: Option<string>) {
    Chosen(k.stack, to) < |k.stack| && r.valid(flag, k.stack[Chosen(k.stack, to)].value)
  }

  /** Two plain reverts of a set key undo each other unless the first one succeeds on a current
    * value that no longer validates, or on a hand-written stack longer than the cap. */
  lemma {:induction false} TwoReverts(k: KeyState, r: Rules, flag: string, now1: string, now2: string)
    requires k.current.Some?
    ensures var twice := RevertState(RevertState(k, r, flag, None, now1), r, flag, None, now2);
      SameValues(twice, k)
      <==> !Reverts(k, r, flag, None) || (|k.stack| <= HISTORY_CAP && r.valid(flag, k.current.value))
  {
    if Reverts(k, r, flag, None) {
      var once := RevertState(k, r, flag, None, now1);
      assert Without(k.stack, 0) == k.stack[1..];
      assert |k.stack| > HISTORY_CAP ==> |Values(once.stack)| < |Values(k.stack)|;
      assert once.stack[0] == WasEntry(k.current.value, now1);
      if |k.stack| <= HISTORY_CAP {
        assert once.stack == [WasEntry(k.current.value, now1)] + k.stack[1..];
        assert Without(once.stack, 0) == k.stack[1..];
        if r.valid(flag, k.current.value) {
          var twice := RevertState(once, r, flag, None, now2);
          assert twice.stack == [WasEntry(k.stack[0].value, now2)] + k.stack[1..];
          assert Values(twice.stack) == Values(k.stack);
        }
      }
    }
  }

  /** Everything a key holds: its current value and its stack. */
  function Held(k: KeyState): multiset<string> {
    (if k.current.Some? then multiset{k.current.value} else multiset{}) + multiset(Values(k.stack))
  }

  lemma {:induction false} ValuesConcat(a: seq<WasEntry>, b: seq<WasEntry>)
    ensures Values(a + b) == Values(a) + Values(b)
  {
    if a == [] {
      assert a + b == b;
    } else {
      assert (a + b)[1..] == a[1..] + b;
      ValuesConcat(a[1..], b);
    }
  }

  lemma {:induction false} ValuesWithout(stack: seq<WasEntry>, i: nat)
    requires i < |stack|
    ensures multiset(Values(stack)) == multiset{stack[i].value} + multiset(Values(Without(stack, i)))
  {
    var a, e, b := stack[..i], stack[i], stack[i + 1..];
    assert stack == a + ([e] + b) && Without(stack, i) == a + b;
    hide *;
    ValuesAround(a, e, b);
    CountAround(Values(a), e.value, Values(b));
  }

  lemma ValuesAround(a: seq<WasEntry>, e: WasEntry, b: seq<WasEntry>)
    ensures Values(a + ([e] + b)) == Values(a) + ([e.value] + Values(b))
    ensures Values(a + b) == Values(a) + Values(b)
  {
    ValuesConcat(a, [e] + b);
    ValuesConcat([e], b);
    ValuesConcat(a, b);
    assert Values([e]) == [e.value];
  }

  lemma CountAround<T>(a: seq<T>, x: T, b: seq<T>)
    ensures multiset(a + ([x] + b)) == multiset{x} + multiset(a + b)
  {
  }

  /** No revert, plain or by timestamp, loses a value, except that of a set key whose hand-written
    * stack is longer than the cap. */
  lemma {:induction false} RevertPermutes(k: KeyState, r: Rules, flag: string, to: Option<string>, now: string)
    ensures Held(RevertState(k, r, flag, to, now)) == Held(k)
      <==> !(Reverts(k, r, flag, to) && k.current.Some? && |k.stack| > HISTORY_CAP)
  {
    if Reverts(k, r, flag, to) {
      var i := Chosen(k.stack, to);
      ValuesWithout(k.stack, i);
      if k.current.Some? {
        SwapHolds(k, i, now);
      }
    }
  }

  lemma {:induction false} SwapHolds(k: KeyState, i: nat, now: string)
    requires i < |k.stack| && k.current.Some?
    ensures var k' := KeyState(Some(k.stack[i].value), Capped([WasEntry(k.current.value, now)] + Without(k.stack, i)));
      Held(k') == Held(k) <==> |k.stack| <= HISTORY_CAP
  {
    var top, rest := [WasEntry(k.current.value, now)], Without(k.stack, i);
    var k' := KeyState(Some(k.stack[i].value), Capped(top + rest));
    if |k.stack| <= HISTORY_CAP {
      ValuesWithout(k.stack, i);
      ValuesConcat(top, rest);
      assert Values(top) == [k.current.value];
    } else {
      hide Values;
      assert |Held(k)| == 1 + |k.stack| && |Held(k')| == 1 + HISTORY_CAP;
    }
  }

  /** Unset then revert brings back the value, if it still validates, with the newest four entries
    * of its stack. */
  lemma {:induction false} UnsetThenRevert(k: KeyState, r: Rules, flag: string, now1: string, now2: string)
    requires k.current.Some?
    ensures var back := RevertState(UnsetState(k, now1), r, flag, None, now2);
      && (back.current == k.current <==> r.valid(flag, k.current.value))
      && (r.valid(flag, k.current.value) ==>
            back.stack == (if |k.stack| <= HISTORY_CAP - 1 then k.stack else k.stack[..HISTORY_CAP - 1]))
      && (back == k <==> r.valid(flag, k.current.value) && |k.stack| <= HISTORY_CAP - 1)
  {
    var gone := UnsetState(k, now1);
    assert gone.stack[0] == WasEntry(k.current.value, now1);
    assert Without(gone.stack, 0) == gone.stack[1..];
  }

  // ----- The laws on a document

  /** The state of one key after two commands on it, whatever is done to other keys meanwhile. */
  lemma TwoCommands(doc: seq<Named>, g: Registry, a: seq<Op>, op1: Op, b: seq<Op>, op2: Op, c: seq<Op>, section: string, flag: string)
    requires SoundDoc(doc, g) && g(section).managed(flag) && Position(doc, section) < |doc|
    requires Elsewhere(a, section, flag) && Elsewhere(b, section, flag) && Elsewhere(c, section, flag)
    requires Addresses(op1, section, flag) && Addresses(op2, section, flag)
    requires forall op | op in a + ([op1] + (b + ([op2] + c))) :: Proper(doc, op)
    ensures var end := RunAll(doc, g, a + ([op1] + (b + ([op2] + c))));
      && Position(end, section) < |end|
      && StateAt(end, g, section, flag) == StepState(StepState(StateAt(doc, g, section, flag), g(section), op1), g(section), op2)
  {
    hide *;
    ReplayTwo(StateAt(doc, g, section, flag), g(section), a, op1, b, op2, c, section, flag);
    RunRefines(doc, g, a + ([op1] + (b + ([op2] + c))), section, flag);
  }

  /** Two plain reverts of a set key restore what the text says about it, exactly under the
    * condition of `TwoReverts`. */
  lemma RevertTwiceRestores(doc: seq<Named>, g: Registry, a: seq<Op>, b: seq<Op>, c: seq<Op>,
                            section: string, flag: string, now1: string, now2: string)
    requires SoundDoc(doc, g) && g(section).managed(flag) && Position(doc, section) < |doc|
    requires StateAt(doc, g, section, flag).current.Some?
    requires Elsewhere(a, section, flag) && Elsewhere(b, section, flag) && Elsewhere(c, section, flag)
    requires forall op | op in a || op in b || op in c :: Proper(doc, op)
    ensures var k := StateAt(doc, g, section, flag);
      var end := RunAll(doc, g, a + ([RevertOp(section, flag, None, now1)] + (b + ([RevertOp(section, flag, None, now2)] + c))));
      && Position(end, section) < |end|
      && (SameValues(StateAt(end, g, section, flag), k)
          <==> !Reverts(k, g(section), flag, None) || (|k.stack| <= HISTORY_CAP && g(section).valid(flag, k.current.value)))
  {
    hide SoundDoc, StateAt, RunAll, RevertState, Reverts, SameValues, Elsewhere, Position, SingleLine;
    var k := StateAt(doc, g, section, flag);
    TwoCommands(doc, g, a, RevertOp(section, flag, None, now1), b, RevertOp(section, flag, None, now2), c, section, flag);
    TwoReverts(k, g(section), flag, now1, now2);
  }

  /** A key unset and reverted, with any commands on other keys in between, has its value back if it
    * still validates, and then a stack of at most four with it. */
  lemma UnsetThenRevertRestores(doc: seq<Named>, g: Registry, a: seq<Op>, b: seq<Op>, c: seq<Op>,
                                section: string, flag: string, now1: string, now2: string)
    requires SoundDoc(doc, g) && g(section).managed(flag) && Position(doc, section) < |doc|
    requires StateAt(doc, g, section, flag).current.Some?
    requires Elsewhere(a, section, flag) && Elsewhere(b, section, flag) && Elsewhere(c, section, flag)
    requires forall op | op in a || op in b || op in c :: Proper(doc, op)
    ensures var k := StateAt(doc, g, section, flag);
      var end := RunAll(doc, g, a + ([UnsetOp(section, flag, now1)] + (b + ([RevertOp(section, flag, None, now2)] + c))));
      && Position(end, section) < |end|
      && (StateAt(end, g, section, flag).current == k.current <==> g(section).valid(flag, k.current.value))
      && (StateAt(end, g, section, flag) == k <==> g(section).valid(flag, k.current.value) && |k.stack| <= HISTORY_CAP - 1)
  {
    hide SoundDoc, StateAt, RunAll, RevertState, UnsetState, Elsewhere, Position, SingleLine;
    var k := StateAt(doc, g, section, flag);
    TwoCommands(doc, g, a, UnsetOp(section, flag, now1), b, RevertOp(section, flag, None, now2), c, section, flag);
    UnsetThenRevert(k, g(section), flag, now1, now2);
  }
}
