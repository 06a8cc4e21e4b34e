/** Every `set`, `unset` and `revert` on a section refines one step of the key's bounded undo
  * stack, and changes no other key's.
  *
  * A `set` pushes the value it replaces, or adopts the block the key left behind; an `unset` turns the
  * key's stack into such a block and attaches it where the key was; a `revert` takes an entry out of
  * the stack or of the block. Each is a step on values, and each keeps the section well-formed.
  */
module ConfigHistory {
  import opened ConfigRefinement
  import opened ConfigSection
  import opened HistoryBlocks
  import opened HistoryHolders
  import opened HistoryStack
  import opened HistoryText
  import opened TaggedRuns
  import opened Wrappers

  // ----- What an unset leaves behind

  /** The block written for an unset known key, after the orphans its head already held. */
  function NewBlocks(k: KeyItem, managed: bool, now: string): seq<Block> {
    if managed then [Block(Some(k.flag), Capped([WasEntry(k.value, now)] + Split(k.prefix).stack))] else []
  }

  lemma TaggedBlock(h: seq<Line>, flag: string, stack: seq<WasEntry>)
    requires GoodHead(h) && stack != []
    ensures var ls := AllLines(Text(h + [Tag(flag)] + WasLines(stack), Blank));
      && Separated(ls, Free)
      && Blocks(ls, Blank) == Blocks(h, Blank) + [Block(Some(flag), stack)]
  {
    var w := WasLines(stack);
    GoodHeadEnd(h);
    EntriesOfWasLines(stack);
    OneRun(w, Tag(flag));
    GapOfWas(w, Free);
    hide WasLines, Entries;
    BlocksConcat(h, [Tag(flag)], Blank);
    CommentsHoldNothing([Tag(flag)], Above(h, Blank));
    GapConcat(h, [Tag(flag)], Free);
    GapOfComments([Tag(flag)], Free);
    hide Blocks, Separated, GapAfter;
    BlocksConcat(h + [Tag(flag)], w, Blank);
    GapConcat(h + [Tag(flag)], w, Free);
    EndedByBlank(h + [Tag(flag)] + w);
  }

  lemma LeftBehindHolds(k: KeyItem, managed: bool, now: string)
    requires GoodKey(k, managed)
    ensures var ls := AllLines(LeftBehind(k, managed, now));
      Separated(ls, Free) && Blocks(ls, Blank) == OrphansOf(k, managed) + NewBlocks(k, managed, now)
  {
    if managed {
      var p := Split(k.prefix);
      var stack := Capped([WasEntry(k.value, now)] + p.stack);
      LeftBehindIs(k, now);
      assert stack != [];
      hide Blocks, Separated, Split, WasLines, LeftBehind, GapAfter;
      TaggedBlock(p.head.lines, k.flag, stack);
    } else {
      hide Blocks, Separated;
      TailHoldsNothing(k.prefix);
      TailHoldsNothing(Text(k.prefix.lines, Blank));
    }
  }

  lemma LeftBehindIs(k: KeyItem, now: string)
    requires IsWhite(k.prefix.tail) && SingleLine(k.value)
    ensures var p := Split(k.prefix);
      LeftBehind(k, true, now) == Text(p.head.lines + [Tag(k.flag)] + WasLines(Capped([WasEntry(k.value, now)] + p.stack)), Blank)
  {
    SplitHead(k.prefix);
    var bare := Text(k.prefix.lines, Blank);
    assert Split(bare).head == Split(k.prefix).head && Split(bare).stack == Split(k.prefix).stack;
  }

  // ----- Unset

  lemma KeyTakenOut(s: Section, r: Rules, i: nat) returns (x: seq<Block>, y: seq<Block>)
    requires i < |s.keys|
    ensures AllBlocks(s, r) == x + OrphansOf(s.keys[i], r.managed(s.keys[i].flag)) + y
    ensures AllBlocks(s.(keys := s.keys[..i] + s.keys[i + 1..]), r) == x + y
  {
    hide OrphansOf, Blocks;
    assert TailBlocks(s.(keys := s.keys[..i] + s.keys[i + 1..])) == TailBlocks(s);
    hide TailBlocks;
    KeyBlocksAround(s.keys, i, r);
    KeyBlocksConcat(s.keys[..i], s.keys[i + 1..], r);
    hide KeyBlocks;
    x, y := KeyBlocks(s.keys[..i], r), KeyBlocks(s.keys[i + 1..], r) + TailBlocks(s);
  }

  lemma KeysWithout(keys: seq<KeyItem>, r: Rules, i: nat)
    requires GoodKeys(keys, r) && i < |keys|
    ensures GoodKeys(keys[..i] + keys[i + 1..], r)
    ensures forall f :: ItemOf(keys[..i] + keys[i + 1..], f) == if f == keys[i].flag then None else ItemOf(keys, f)
  {
    hide GoodKey;
    forall f ensures ItemOf(keys[..i] + keys[i + 1..], f) == if f == keys[i].flag then None else ItemOf(keys, f) {
      ItemsWithout(keys, i, f);
    }
  }

  /** Blocks `o` leave one place of a list and come back, with `n` below them, at another. */
  lemma Moved(x: seq<Block>, o: seq<Block>, y: seq<Block>, x': seq<Block>, n: seq<Block>, y': seq<Block>, flag: string)
    requires Unique(x + o + y) && x' + y' == x + y
    requires n == [] || (|n| == 1 && n[0].tag == Some(flag) && Lookup(x + o + y, flag).None?)
    ensures Unique(x' + (o + n) + y')
    ensures Lookup(x' + (o + n) + y', flag) == if n != [] then Some(n[0].entries) else Lookup(x + o + y, flag)
  {
    LookupFinds(x + o + y, flag);
    assert n != [] ==> Disjoint(x + o + y, n) && Unique(n);
    MovedParts(x, o, y, n);
    UniqueInsert(x', o + n, y');
    LookupInsert(x', o + n, y', flag);
    LookupInsert(x, o, y, flag);
    LookupConcat(o, n, flag);
    assert n != [] ==> Lookup(n, flag) == Some(n[0].entries);
  }

  lemma MovedParts(x: seq<Block>, o: seq<Block>, y: seq<Block>, n: seq<Block>)
    requires Unique(x + o + y) && (n == [] || (Unique(n) && Disjoint(x + o + y, n)))
    ensures Unique(x + y) && Unique(o + n) && Disjoint(x + y, o + n) && Disjoint(x + y, o)
  {
    if n == [] {
      assert o + n == o;
      UniqueInsert(x, o, y);
    } else {
      UniqueInsert(x, o, y);
      DisjointConcat(x + o, y, n);
      DisjointConcat(x, o, n);
      DisjointConcat(x, y, n);
      DisjointConcat(o, n, x + y);
      UniqueConcat(o, n);
    }
  }

  lemma MovedOthers(x: seq<Block>, o: seq<Block>, y: seq<Block>, x': seq<Block>, n: seq<Block>, y': seq<Block>, flag: string, other: string)
    requires Unique(x + o + y) && x' + y' == x + y && other != flag
    requires n == [] || (|n| == 1 && n[0].tag == Some(flag) && Lookup(x + o + y, flag).None?)
    ensures Lookup(x' + (o + n) + y', other) == Lookup(x + o + y, other)
  {
    LookupFinds(x + o + y, flag);
    assert n != [] ==> Disjoint(x + o + y, n) && Unique(n);
    MovedParts(x, o, y, n);
    LookupInsert(x', o + n, y', other);
    LookupInsert(x, o, y, other);
    LookupConcat(o, n, other);
    assert Lookup(n, other).None?;
  }

  lemma MovedTags(x: seq<Block>, o: seq<Block>, y: seq<Block>, x': seq<Block>, n: seq<Block>, y': seq<Block>, keys: seq<KeyItem>, r: Rules)
    requires TagsUnset(x + o + y, keys, r) && TagsUnset(n, keys, r) && x' + y' == x + y
    ensures TagsUnset(x' + (o + n) + y', keys, r)
  {
    TagsConcat(x + o, y, keys, r);
    TagsConcat(x, o, keys, r);
    TagsConcat(x, y, keys, r);
    TagsConcat(x', y', keys, r);
    TagsConcat(o, n, keys, r);
    TagsConcat(x', o + n, keys, r);
    TagsConcat(x' + (o + n), y', keys, r);
  }

  /** What is known of a section after the key at `i` has been unset. */
  ghost predicate Unset(s: Section, s': Section, r: Rules, i: nat, n: seq<Block>)
    requires i < |s.keys|
  {
    && SameKeys(s.keys[..i] + s.keys[i + 1..], s'.keys, r)
    && WellFormed(s', r)
    && forall f :: Lookup(AllBlocks(s', r), f) ==
                   if n != [] && f == s.keys[i].flag then Some(n[0].entries) else Lookup(AllBlocks(s, r), f)
  }

  lemma UnsetLeaves(s: Section, r: Rules, i: nat, now: string, inHeader: bool)
    requires WellFormed(s, r) && i < |s.keys|
    ensures var k := s.keys[i];
      var without := s.(keys := s.keys[..i] + s.keys[i + 1..]);
      Unset(s, AttachBlock(without, i, LeftBehind(k, r.managed(k.flag), now), inHeader), r, i, NewBlocks(k, r.managed(k.flag), now))
  {
    var k := s.keys[i];
    var m := r.managed(k.flag);
    var without, left, n := s.(keys := s.keys[..i] + s.keys[i + 1..]), LeftBehind(k, m, now), NewBlocks(k, m, now);
    assert n != [] ==> |n| == 1 && n[0].tag == Some(k.flag) && m;
    hide NewBlocks;
    var s' := AttachBlock(without, i, left, inHeader);
    assert GoodKey(k, m);
    hide AllBlocks, Blocks, OrphansOf, Separated, GoodKey, LeftBehind, AttachBlock, AllLines, Unique, Split, Lookup;
    var x, y := KeyTakenOut(s, r, i);
    KeysWithout(s.keys, r, i);
    LeftBehindHolds(k, m, now);
    var x', y' := Attaches(without, r, i, left, inHeader);
    BlocksAfterUnset(s, s', r, i, x, OrphansOf(k, m), y, x', n, y');
  }

  lemma BlocksAfterUnset(s: Section, s': Section, r: Rules, i: nat,
                         x: seq<Block>, o: seq<Block>, y: seq<Block>, x': seq<Block>, n: seq<Block>, y': seq<Block>)
    requires WellFormed(s, r) && i < |s.keys| && AllBlocks(s, r) == x + o + y
    requires SameKeys(s.keys[..i] + s.keys[i + 1..], s'.keys, r) && GoodKeys(s'.keys, r) && Separated(AllLines(s'.tail), Free)
    requires x' + y' == x + y && AllBlocks(s', r) == x' + (o + n) + y'
    requires n == [] || (|n| == 1 && n[0].tag == Some(s.keys[i].flag) && r.managed(s.keys[i].flag))
    ensures Unset(s, s', r, i, n)
  {
    var flag := s.keys[i].flag;
    assert GoodBlocks(x + o + y, s.keys, r) && DistinctFlags(s.keys) && Unique(x + o + y);
    hide *;
    assert n != [] ==> Lookup(x + o + y, flag).None? by {
      NoBlockFor(x + o + y, s.keys, r, i);
    }
    GoodAfterUnset(s.keys, s'.keys, r, i, x, o, y, x', n, y');
    Moved(x, o, y, x', n, y', flag);
    forall f ensures Lookup(AllBlocks(s', r), f) ==
                   if n != [] && f == flag then Some(n[0].entries) else Lookup(AllBlocks(s, r), f) {
      if f != flag {
        MovedOthers(x, o, y, x', n, y', flag, f);
      }
    }
    UnsetIs(s, s', r, i, n);
  }

  lemma UnsetIs(s: Section, s': Section, r: Rules, i: nat, n: seq<Block>)
    requires i < |s.keys| && SameKeys(s.keys[..i] + s.keys[i + 1..], s'.keys, r)
    requires GoodKeys(s'.keys, r) && Separated(AllLines(s'.tail), Free) && GoodBlocks(AllBlocks(s', r), s'.keys, r)
    requires forall f :: Lookup(AllBlocks(s', r), f) ==
                         if n != [] && f == s.keys[i].flag then Some(n[0].entries) else Lookup(AllBlocks(s, r), f)
    ensures Unset(s, s', r, i, n)
  {
    hide AllBlocks, Lookup, SameKeys, GoodKeys, Separated, GoodBlocks, AllLines;
  }

  /** No block is tagged for a key that is set. */
  lemma NoBlockFor(bs: seq<Block>, keys: seq<KeyItem>, r: Rules, i: nat)
    requires GoodBlocks(bs, keys, r) && DistinctFlags(keys) && i < |keys|
    ensures Lookup(bs, keys[i].flag).None?
  {
    LookupFinds(bs, keys[i].flag);
    OnlyKey(keys, i, keys[i].flag);
  }

  lemma GoodAfterUnset(keys: seq<KeyItem>, keys': seq<KeyItem>, r: Rules, i: nat,
                       x: seq<Block>, o: seq<Block>, y: seq<Block>, x': seq<Block>, n: seq<Block>, y': seq<Block>)
    requires DistinctFlags(keys) && i < |keys| && GoodBlocks(x + o + y, keys, r)
    requires SameKeys(keys[..i] + keys[i + 1..], keys', r) && x' + y' == x + y
    requires n == [] || (|n| == 1 && n[0].tag == Some(keys[i].flag) && r.managed(keys[i].flag))
    ensures GoodBlocks(x' + (o + n) + y', keys', r)
  {
    var flag := keys[i].flag;
    NoBlockFor(x + o + y, keys, r, i);
    forall f ensures HasKey(keys', f) ==> HasKey(keys, f) && f != flag {
      SameFlags(keys[..i] + keys[i + 1..], keys', f);
      ItemsWithout(keys, i, f);
    }
    hide HasKey, Lookup, SameKeys;
    MovedTags(x, o, y, x', n, y', keys', r);
    Moved(x, o, y, x', n, y', flag);
  }

  lemma FlagsAreDistinct(keys: seq<KeyItem>, r: Rules)
    requires GoodKeys(keys, r)
    ensures DistinctFlags(keys)
  {
  }

  lemma StatesAfterUnset(s: Section, s': Section, r: Rules, i: nat, now: string, other: string)
    requires WellFormed(s, r) && i < |s.keys| && r.managed(other)
    requires Unset(s, s', r, i, NewBlocks(s.keys[i], r.managed(s.keys[i].flag), now))
    ensures var flag := s.keys[i].flag;
      StateOf(s', r, other) == if other == flag then UnsetState(StateOf(s, r, flag), now) else StateOf(s, r, other)
  {
    hide AllBlocks, Lookup, Split, GoodKeys, Separated, AllLines, Blocks, KeyStack, Capped, IndexOf, GoodBlocks, SameKeys,
         DistinctFlags, StateOf;
    FlagsAreDistinct(s.keys, r);
    StateIsFound(s, r, other);
    StateIsFound(s', r, other);
    SameKeysSameItems(s.keys[..i] + s.keys[i + 1..], s'.keys, r, AllBlocks(s', r), other);
    ItemsWithout(s.keys, i, other);
    if other == s.keys[i].flag {
      OnlyKey(s.keys, i, other);
    }
  }

  /** `unset` refines its step: the value joins the history the key left behind, wherever that is
    * attached, and every other key keeps value and history. Removing an unknown key changes no
    * known one. */
  lemma UnsetRefines(s: Section, r: Rules, flag: string, now: string, inHeader: bool, other: string)
    requires WellFormed(s, r) && r.managed(other)
    ensures var s' := UnsetKey(s, r, flag, now, inHeader);
      && WellFormed(s', r)
      && StateOf(s', r, other) == if other == flag then UnsetState(StateOf(s, r, flag), now) else StateOf(s, r, other)
  {
    var s', i := UnsetKey(s, r, flag, now, inHeader), IndexOf(s.keys, flag);
    hide AllBlocks, LeftBehind, AttachBlock, Lookup, Split, GoodKeys, Separated, AllLines, Blocks, KeyStack, NewBlocks;
    if i < |s.keys| {
      UnsetLeaves(s, r, i, now, inHeader);
      hide UnsetKey;
      StatesAfterUnset(s, s', r, i, now, other);
    }
  }

  // ----- Set and revert

  lemma SetIs(s: Section, r: Rules, flag: string, value: string, now: string)
    requires WellFormed(s, r) && r.managed(flag) && r.valid(flag, value)
    ensures var k := StateOf(s, r, flag);
      if HasKey(s.keys, flag) then
        var j := IndexOf(s.keys, flag);
        var p := Split(s.keys[j].prefix);
        SetKey(s, r, flag, value, now) ==
        if r.same(flag, s.keys[j].value, value) then s
        else s.(keys := s.keys[j := KeyItem(flag, RenderStackBlock(p.head, Banked(k, k.stack, now), p.indent), value)])
      else
        var a := Adopt(s, r, flag);
        SetKey(s, r, flag, value, now) ==
        a.section.(keys := a.section.keys + [KeyItem(flag, if a.prefix.Some? then a.prefix.value else EMPTY, value)])
  {
    hide AllBlocks, Split, Separated, Blocks, AllLines, RenderStackBlock, Adopt, Capped, DistinctFlags, GoodBlocks, IndexOf;
  }

  /** `set` refines its step: the replaced value is banked, an unset key gets its history back,
    * and every other key keeps value and history. */
  lemma SetRefines(s: Section, r: Rules, flag: string, value: string, now: string, other: string)
    requires WellFormed(s, r) && r.managed(other) && SingleLine(value)
    ensures var s' := SetKey(s, r, flag, value, now);
      && WellFormed(s', r)
      && StateOf(s', r, other) == if other == flag then SetState(StateOf(s, r, flag), r, flag, value, now) else StateOf(s, r, other)
  {
    var i, k := IndexOf(s.keys, flag), StateOf(s, r, flag);
    hide AllBlocks, Split, Separated, Blocks, AllLines, Adopt, RenderStackBlock, KeyStack, Capped;
    if r.managed(flag) && r.valid(flag, value) {
      SetIs(s, r, flag, value, now);
      hide SetKey, WellFormed, GoodKey;
      if i < |s.keys| {
        ReplacedKey(s, r, i, Banked(k, k.stack, now), value, other);
      } else {
        RecreatedKey(s, r, flag, k.stack, value, other);
      }
    }
  }

  /** No stack entry spans lines: each was read from one. */
  predicate OneLine(stack: seq<WasEntry>) {
    forall i | 0 <= i < |stack| :: SingleLine(stack[i].value)
  }

  /** The stack once its entry `c` has been taken and the current value, if any, banked. */
  function Remaining(k: KeyState, c: nat, now: string): seq<WasEntry>
    requires c < |k.stack|
  {
    Banked(k, Without(k.stack, c), now)
  }

  lemma RevertIs(s: Section, r: Rules, flag: string, to: Option<string>, now: string)
    requires WellFormed(s, r) && Chosen(KeyStack(s, r, flag), to) < |KeyStack(s, r, flag)|
    ensures var stack := KeyStack(s, r, flag);
      var c := Chosen(stack, to);
      var rest := Remaining(StateOf(s, r, flag), c, now);
      r.managed(flag) && r.valid(flag, stack[c].value) ==>
      if HasKey(s.keys, flag) then
        var j := IndexOf(s.keys, flag);
        var p := Split(s.keys[j].prefix);
        RevertKey(s, r, flag, to, now) ==
        s.(keys := s.keys[j := KeyItem(flag, RenderStackBlock(p.head, rest, p.indent), stack[c].value)])
      else
        var a := Adopt(s, r, flag);
        var p := Split(if a.prefix.Some? then a.prefix.value else EMPTY);
        RevertKey(s, r, flag, to, now) ==
        a.section.(keys := a.section.keys + [KeyItem(flag, RenderStackBlock(p.head, rest, p.indent), stack[c].value)])
  {
    hide AllBlocks, Split, Separated, Blocks, AllLines, Chosen, RenderStackBlock, Adopt, Without, Capped, KeyStack, DistinctFlags, GoodBlocks, IndexOf;
  }

  /** `revert` refines its step: the chosen entry becomes the value, the current value, if any, is
    * banked in its stead, and every other key keeps value and history. */
  lemma RevertRefines(s: Section, r: Rules, flag: string, to: Option<string>, now: string, other: string)
    requires WellFormed(s, r) && r.managed(other) && OneLine(StateOf(s, r, flag).stack)
    ensures var s' := RevertKey(s, r, flag, to, now);
      && WellFormed(s', r)
      && StateOf(s', r, other) == if other == flag then RevertState(StateOf(s, r, flag), r, flag, to, now) else StateOf(s, r, other)
  {
    var i, k := IndexOf(s.keys, flag), StateOf(s, r, flag);
    var c := Chosen(k.stack, to);
    hide AllBlocks, Split, Separated, Blocks, AllLines, Adopt, RenderStackBlock, KeyStack, Chosen, Without, Capped;
    if r.managed(flag) && c < |k.stack| && r.valid(flag, k.stack[c].value) {
      RevertIs(s, r, flag, to, now);
      hide RevertKey, WellFormed, GoodKey;
      if i < |s.keys| {
        ReplacedKey(s, r, i, Remaining(k, c, now), k.stack[c].value, other);
      } else {
        RecreatedKey(s, r, flag, Remaining(k, c, now), k.stack[c].value, other);
      }
    }
  }
}
