/** A section's comment text as the bounded undo stack of each of its keys.
  *
  * In a well-formed section every orphan block is tagged for a known flag that is not set, one block per
  * flag, and no block runs into another or into a key's own stack. Then what is found for a flag is its
  * own block wherever that is attached; cutting it out, replacing a key's stack, adding and removing a
  * key and attaching a block each change the state of that one flag.
  */
module ConfigRefinement {
  import opened ConfigSection
  import opened HistoryBlocks
  import opened HistoryHolders
  import opened HistoryRuns
  import opened HistoryStack
  import opened HistoryText
  import opened Seqs
  import opened TaggedRuns
  import opened Wrappers

  // ----- Blocks by tag

  function Lookup(bs: seq<Block>, flag: string): Option<seq<WasEntry>> {
    if bs == [] then None
    else if bs[0].tag == Some(flag) then Some(bs[0].entries)
    else Lookup(bs[1..], flag)
  }

  /** Every block is tagged, no two for the same flag. */
  predicate Unique(bs: seq<Block>) {
    && (forall i | 0 <= i < |bs| :: bs[i].tag.Some?)
    && (forall i, j | 0 <= i < j < |bs| :: bs[i].tag != bs[j].tag)
  }

  lemma {:induction false} LookupConcat(a: seq<Block>, b: seq<Block>, flag: string)
    ensures Lookup(a + b, flag) == if Lookup(a, flag).Some? then Lookup(a, flag) else Lookup(b, flag)
  {
    if a == [] {
      assert a + b == b;
    } else {
      assert (a + b)[1..] == a[1..] + b;
      LookupConcat(a[1..], b, flag);
    }
  }

  lemma {:induction false} LookupFinds(bs: seq<Block>, flag: string)
    ensures Lookup(bs, flag).Some? ==> exists i | 0 <= i < |bs| :: bs[i] == Block(Some(flag), Lookup(bs, flag).value)
    ensures Lookup(bs, flag).None? ==> forall i | 0 <= i < |bs| :: bs[i].tag != Some(flag)
  {
    if bs != [] && bs[0].tag != Some(flag) {
      LookupFinds(bs[1..], flag);
      if Lookup(bs, flag).Some? {
        var i :| 0 <= i < |bs[1..]| && bs[1..][i] == Block(Some(flag), Lookup(bs, flag).value);
        assert bs[i + 1] == bs[1..][i];
      } else {
        assert forall i | 0 < i < |bs| :: bs[i] == bs[1..][i - 1];
      }
    }
  }

  lemma {:induction false} LookupUnique(bs: seq<Block>, n: nat, flag: string)
    requires Unique(bs) && n < |bs| && bs[n].tag == Some(flag)
    ensures Lookup(bs, flag) == Some(bs[n].entries)
  {
    if n > 0 {
      assert bs[0].tag != bs[n].tag;
      LookupUnique(bs[1..], n - 1, flag);
    }
  }

  lemma {:induction false} LookupWithout(bs: seq<Block>, n: nat, flag: string)
    requires Unique(bs) && n < |bs|
    ensures Unique(Without(bs, n))
    ensures Lookup(Without(bs, n), flag) == if bs[n].tag == Some(flag) then None else Lookup(bs, flag)
  {
    if bs[n].tag == Some(flag) {
      if Lookup(Without(bs, n), flag).Some? {
        LookupFinds(Without(bs, n), flag);
        assert false;
      }
    } else {
      assert bs == bs[..n] + ([bs[n]] + bs[n + 1..]);
      LookupConcat(bs[..n], [bs[n]] + bs[n + 1..], flag);
      LookupConcat([bs[n]], bs[n + 1..], flag);
      LookupConcat(bs[..n], bs[n + 1..], flag);
    }
  }

  // ----- Well-formed sections

  /** A key whose own stack and orphan blocks can be told apart. */
  predicate GoodKey(k: KeyItem, managed: bool) {
    && IsWhite(k.prefix.tail) && SingleLine(k.value)
    && if managed then GoodHead(Split(k.prefix).head.lines) else Separated(AllLines(k.prefix), Free)
  }

  predicate DistinctFlags(keys: seq<KeyItem>) {
    forall i, j | 0 <= i < j < |keys| :: keys[i].flag != keys[j].flag
  }

  predicate GoodKeys(keys: seq<KeyItem>, r: Rules) {
    DistinctFlags(keys) && forall i | 0 <= i < |keys| :: GoodKey(keys[i], r.managed(keys[i].flag))
  }

  /** Each orphan block is tagged for a known flag that is not set, one block per flag. */
  predicate GoodBlocks(bs: seq<Block>, keys: seq<KeyItem>, r: Rules) {
    Unique(bs) && forall i | 0 <= i < |bs| :: r.managed(bs[i].tag.value) && !HasKey(keys, bs[i].tag.value)
  }

  /** What every operation keeps. */
  predicate WellFormed(s: Section, r: Rules) {
    GoodKeys(s.keys, r) && Separated(AllLines(s.tail), Free) && GoodBlocks(AllBlocks(s, r), s.keys, r)
  }

  // ----- The blocks of a section, key by key

  lemma {:induction false} KeyBlocksConcat(a: seq<KeyItem>, b: seq<KeyItem>, r: Rules)
    ensures KeyBlocks(a + b, r) == KeyBlocks(a, r) + KeyBlocks(b, r)
  {
    if a == [] {
      assert a + b == b;
    } else {
      assert (a + b)[1..] == a[1..] + b;
      KeyBlocksConcat(a[1..], b, r);
    }
  }

  lemma KeyBlocksAround(keys: seq<KeyItem>, i: nat, r: Rules)
    requires i < |keys|
    ensures KeyBlocks(keys, r) ==
            KeyBlocks(keys[..i], r) + OrphansOf(keys[i], r.managed(keys[i].flag)) + KeyBlocks(keys[i + 1..], r)
  {
    assert keys == keys[..i] + ([keys[i]] + keys[i + 1..]);
    KeyBlocksConcat(keys[..i], [keys[i]] + keys[i + 1..], r);
    assert ([keys[i]] + keys[i + 1..])[1..] == keys[i + 1..];
  }

  predicate NoneIn(bs: seq<Block>, p: Block -> bool) {
    forall j | 0 <= j < |bs| :: !p(bs[j])
  }

  lemma NoneInConcat(a: seq<Block>, b: seq<Block>, p: Block -> bool)
    requires NoneIn(a, p) && NoneIn(b, p)
    ensures NoneIn(a + b, p)
  {
  }

  lemma {:induction false} NoPlace(s: Section, r: Rules, p: Block -> bool, i: nat)
    requires i <= |s.keys| && FirstPlace(s, r, p, i).None?
    ensures NoneIn(KeyBlocks(s.keys[i..], r), p) && NoneIn(TailBlocks(s), p)
    decreases |s.keys| - i
  {
    if i < |s.keys| {
      NoPlace(s, r, p, i + 1);
      assert s.keys[i..][1..] == s.keys[i + 1..];
      NoneInConcat(OrphansOf(s.keys[i], r.managed(s.keys[i].flag)), KeyBlocks(s.keys[i + 1..], r), p);
    }
  }

  /** The blocks before and after those of one place's holder. */
  function Before(s: Section, r: Rules, p: Place): seq<Block>
    requires IsPlace(s, r, p)
  {
    if p.InKey? then KeyBlocks(s.keys[..p.i], r) else KeyBlocks(s.keys, r)
  }

  function HolderBlocks(s: Section, r: Rules, p: Place): seq<Block>
    requires IsPlace(s, r, p)
  {
    if p.InKey? then OrphansOf(s.keys[p.i], r.managed(s.keys[p.i].flag)) else TailBlocks(s)
  }

  function Behind(s: Section, r: Rules, p: Place): seq<Block>
    requires IsPlace(s, r, p)
  {
    if p.InKey? then KeyBlocks(s.keys[p.i + 1..], r) + TailBlocks(s) else []
  }

  lemma AroundPlace(s: Section, r: Rules, p: Place)
    requires IsPlace(s, r, p)
    ensures AllBlocks(s, r) == Before(s, r, p) + HolderBlocks(s, r, p) + Behind(s, r, p)
    ensures p.k < |HolderBlocks(s, r, p)| && HolderBlocks(s, r, p)[p.k] == BlockIn(s, r, p)
  {
    if p.InKey? {
      KeyBlocksAround(s.keys, p.i, r);
      hide KeyBlocks, OrphansOf, TailBlocks;
      Assoc(Before(s, r, p) + HolderBlocks(s, r, p), KeyBlocks(s.keys[p.i + 1..], r), TailBlocks(s));
    }
  }

  lemma PlaceHoldsBlock(s: Section, r: Rules, p: Place)
    requires IsPlace(s, r, p)
    ensures var n := |Before(s, r, p)| + p.k;
      n < |AllBlocks(s, r)| && AllBlocks(s, r)[n] == BlockIn(s, r, p)
  {
    hide *;
    AroundPlace(s, r, p);
    MiddlePart(Before(s, r, p), HolderBlocks(s, r, p), Behind(s, r, p), p.k);
  }

  lemma PlacedBlock(s: Section, r: Rules, p: Place, flag: string)
    requires Unique(AllBlocks(s, r)) && IsPlace(s, r, p)
    ensures BlockIn(s, r, p).tag.Some?
    ensures BlockIn(s, r, p).tag == Some(flag) ==> Lookup(AllBlocks(s, r), flag) == Some(BlockIn(s, r, p).entries)
  {
    PlaceHoldsBlock(s, r, p);
    var all, n := AllBlocks(s, r), |Before(s, r, p)| + p.k;
    hide AllBlocks, BlockIn, Before, IsPlace;
    if all[n].tag == Some(flag) {
      LookupUnique(all, n, flag);
    }
  }

  lemma NotPlaced(s: Section, r: Rules, flag: string)
    requires FirstPlace(s, r, TaggedFor(flag), 0).None?
    ensures Lookup(AllBlocks(s, r), flag).None?
  {
    assert s.keys[0..] == s.keys;
    NoPlace(s, r, TaggedFor(flag), 0);
    hide FirstPlace, KeyBlocks, TailBlocks, Lookup;
    NoneInConcat(KeyBlocks(s.keys, r), TailBlocks(s), TaggedFor(flag));
    LookupFinds(AllBlocks(s, r), flag);
  }

  /** The orphan found for an unset flag is the block tagged for it, wherever it is attached. */
  lemma FindsOwnBlock(s: Section, r: Rules, flag: string)
    requires Unique(AllBlocks(s, r))
    ensures FindOrphan(s, r, flag).Some? <==> Lookup(AllBlocks(s, r), flag).Some?
    ensures FindOrphan(s, r, flag).Some? ==>
      BlockIn(s, r, FindOrphan(s, r, flag).value) == Block(Some(flag), Lookup(AllBlocks(s, r), flag).value)
  {
    hide AllBlocks, FirstPlace, BlockIn, IsPlace, Lookup, Unique, Fits;
    match FirstPlace(s, r, TaggedFor(flag), 0)
    case Some(p) =>
      PlacedBlock(s, r, p, flag);
    case None =>
      NotPlaced(s, r, flag);
      var q := FirstPlace(s, r, UntaggedFor(r, flag), 0);
      if q.Some? {
        PlacedBlock(s, r, q.value, flag);
      }
  }

  // ----- Cutting a block out of its holder

  lemma CutFromHead(h: seq<Line>, stack: seq<WasEntry>, indent: Line, k: nat) returns (comments: seq<Line>)
    requires GoodHead(h) && IsWhite(indent) && k < |Runs(h)|
    ensures var t := Text(h + WasLines(stack), indent);
      && k < |Runs(AllLines(t))| && k < |Blocks(h, Blank)|
      && IsCutOf(ExcisedBlock(t, k), comments, Blocks(h, Blank)[k])
      && GoodHead(HeadWithout(h, k))
      && Excised(t, k).tail == indent
      && Split(Excised(t, k)) == Pieces(Text(HeadWithout(h, k), Blank), stack, indent)
      && Blocks(HeadWithout(h, k), Blank) == Without(Blocks(h, Blank), k)
  {
    comments := PiecesOf(h, RunAt(h, k)).comments;
    hide Blocks, Runs, PiecesOf, GoodHead, Excised, HeadWithout, ExcisedBlock;
    HeadWithoutBlock(h, k);
    ExciseAboveStack(h, WasLines(stack), indent, k);
    GoodHeadEnd(HeadWithout(h, k));
    SplitAfterRender(HeadWithout(h, k), stack, indent);
    PiecesOfBlock(h, k);
  }

  lemma CutFromText(t: Text, k: nat) returns (comments: seq<Line>)
    requires Separated(AllLines(t), Free) && k < |Runs(AllLines(t))|
    ensures k < |Blocks(AllLines(t), Blank)|
    ensures IsCutOf(ExcisedBlock(t, k), comments, Blocks(AllLines(t), Blank)[k])
    ensures Separated(AllLines(Excised(t, k)), Free)
    ensures Blocks(AllLines(Excised(t, k)), Blank) == Without(Blocks(AllLines(t), Blank), k)
    ensures IsWhite(t.tail) ==> IsWhite(Excised(t, k).tail)
  {
    var ls := AllLines(t);
    comments := PiecesOf(ls, RunAt(ls, k)).comments;
    hide Blocks, Runs, PiecesOf, Separated, CutAt, Excised, AllLines;
    ExciseSeparated(t, k);
    CutOfText(ls, RunAt(ls, k));
    PiecesOfBlock(ls, k);
    ExcisedTail(t, k);
  }

  lemma ExcisedTail(t: Text, k: nat)
    requires k < |Runs(AllLines(t))|
    ensures IsWhite(t.tail) ==> IsWhite(Excised(t, k).tail)
  {
    var ls := AllLines(t);
    var r := RunAt(ls, k);
    hide Runs, BlockStart;
    var e := BlockEnd(ls, r.end);
    assert e < |ls| ==> ls[e..][|ls[e..]| - 1] == ls[|ls| - 1];
  }

  lemma CutFromKey(key: KeyItem, managed: bool, k: nat) returns (comments: seq<Line>)
    requires GoodKey(key, managed) && k < |OrphansOf(key, managed)|
    ensures k < |Runs(AllLines(key.prefix))|
    ensures IsCutOf(ExcisedBlock(key.prefix, k), comments, OrphansOf(key, managed)[k])
    ensures var key' := key.(prefix := Excised(key.prefix, k));
      && GoodKey(key', managed)
      && OrphansOf(key', managed) == Without(OrphansOf(key, managed), k)
      && (managed ==> Split(key'.prefix).stack == Split(key.prefix).stack)
  {
    if managed {
      SplitHead(key.prefix);
      var p := Split(key.prefix);
      SameCount(p.head.lines);
      hide Blocks, Runs, Split, GoodHead, Excised, ExcisedBlock;
      assert key.prefix == Text(p.head.lines + WasLines(p.stack), p.indent);
      comments := CutFromHead(p.head.lines, p.stack, p.indent, k);
    } else {
      SameCount(AllLines(key.prefix));
      hide Blocks, Runs, Excised, ExcisedBlock, AllLines;
      comments := CutFromText(key.prefix, k);
    }
  }

  /** The same flags and values in the same order, each known key with the same stack. */
  predicate SameKeys(a: seq<KeyItem>, b: seq<KeyItem>, r: Rules) {
    |a| == |b| && forall i | 0 <= i < |a| ::
      && a[i].flag == b[i].flag && a[i].value == b[i].value
      && (r.managed(a[i].flag) ==> Split(a[i].prefix).stack == Split(b[i].prefix).stack)
  }

  /** What is known of a section once the block at a place has been cut out. */
  ghost predicate CutOut(s: Section, s': Section, r: Rules, p: Place)
    requires IsPlace(s, r, p)
  {
    && SameKeys(s.keys, s'.keys, r) && GoodKeys(s'.keys, r) && Separated(AllLines(s'.tail), Free)
    && |Before(s, r, p)| + p.k < |AllBlocks(s, r)|
    && AllBlocks(s', r) == Without(AllBlocks(s, r), |Before(s, r, p)| + p.k)
  }

  lemma CutFromHolder(s: Section, r: Rules, p: Place) returns (comments: seq<Line>)
    requires GoodKeys(s.keys, r) && Separated(AllLines(s.tail), Free) && IsPlace(s, r, p)
    ensures p.k < |Runs(AllLines(HolderText(s, p)))|
    ensures IsCutOf(ExcisedBlock(HolderText(s, p), p.k), comments, BlockIn(s, r, p))
    ensures CutOut(s, WithHolder(s, p, Excised(HolderText(s, p), p.k)), r, p)
  {
    hide Blocks, Runs, Split, Excised, ExcisedBlock, Separated, GoodHead, IsCutOf;
    if p.InKey? {
      comments := CutFromKey(s.keys[p.i], r.managed(s.keys[p.i].flag), p.k);
      BlocksAfterKeyCut(s, WithHolder(s, p, Excised(HolderText(s, p), p.k)), r, p);
    } else {
      SameCount(AllLines(s.tail));
      comments := CutFromText(s.tail, p.k);
      BlocksAfterTailCut(s, WithHolder(s, p, Excised(s.tail, p.k)), r, p);
    }
  }

  lemma BlocksAfterKeyCut(s: Section, s': Section, r: Rules, p: Place)
    requires IsPlace(s, r, p) && p.InKey? && s'.tail == s.tail && |s'.keys| == |s.keys|
    requires s'.keys[..p.i] == s.keys[..p.i] && s'.keys[p.i + 1..] == s.keys[p.i + 1..]
    requires s'.keys[p.i].flag == s.keys[p.i].flag
    requires OrphansOf(s'.keys[p.i], r.managed(s.keys[p.i].flag)) == Without(HolderBlocks(s, r, p), p.k)
    ensures |Before(s, r, p)| + p.k < |AllBlocks(s, r)|
    ensures AllBlocks(s', r) == Without(AllBlocks(s, r), |Before(s, r, p)| + p.k)
  {
    hide Blocks, OrphansOf;
    assert TailBlocks(s') == TailBlocks(s);
    hide TailBlocks;
    AroundPlace(s, r, p);
    KeyBlocksAround(s'.keys, p.i, r);
    var x, bs, y, z := Before(s, r, p), HolderBlocks(s, r, p), KeyBlocks(s.keys[p.i + 1..], r), TailBlocks(s);
    hide KeyBlocks, Before, HolderBlocks;
    assert AllBlocks(s', r) == x + Without(bs, p.k) + y + z;
    Assoc(x + Without(bs, p.k), y, z);
    WithoutInside(x, bs, y + z, p.k);
  }

  lemma BlocksAfterTailCut(s: Section, s': Section, r: Rules, p: Place)
    requires IsPlace(s, r, p) && p.InTail? && s'.keys == s.keys
    requires TailBlocks(s') == Without(TailBlocks(s), p.k)
    ensures |Before(s, r, p)| + p.k < |AllBlocks(s, r)|
    ensures AllBlocks(s', r) == Without(AllBlocks(s, r), |Before(s, r, p)| + p.k)
  {
    hide TailBlocks, KeyBlocks;
    WithoutInside(KeyBlocks(s.keys, r), TailBlocks(s), [], p.k);
    assert KeyBlocks(s.keys, r) + TailBlocks(s) + [] == KeyBlocks(s.keys, r) + TailBlocks(s);
  }

  lemma WithoutInside<T>(a: seq<T>, b: seq<T>, c: seq<T>, k: nat)
    requires k < |b|
    ensures Without(a + b + c, |a| + k) == a + Without(b, k) + c
  {
  }

  // ----- Keys by flag

  function ItemOf(keys: seq<KeyItem>, flag: string): Option<KeyItem> {
    if HasKey(keys, flag) then Some(keys[IndexOf(keys, flag)]) else None
  }

  lemma {:induction false} ItemOfConcat(a: seq<KeyItem>, b: seq<KeyItem>, flag: string)
    ensures ItemOf(a + b, flag) == if HasKey(a, flag) then ItemOf(a, flag) else ItemOf(b, flag)
    ensures IndexOf(a + b, flag) == if HasKey(a, flag) then IndexOf(a, flag) else |a| + IndexOf(b, flag)
  {
    if a == [] {
      assert a + b == b;
    } else {
      assert (a + b)[1..] == a[1..] + b;
      ItemOfConcat(a[1..], b, flag);
    }
  }

  lemma {:induction false} SameFlags(a: seq<KeyItem>, b: seq<KeyItem>, flag: string)
    requires |a| == |b| && forall i | 0 <= i < |a| :: a[i].flag == b[i].flag
    ensures IndexOf(a, flag) == IndexOf(b, flag)
  {
    if a != [] {
      SameFlags(a[1..], b[1..], flag);
    }
  }

  /** Removing the key of one flag changes what no other flag finds. */
  lemma ItemsWithout(keys: seq<KeyItem>, i: nat, flag: string)
    requires DistinctFlags(keys) && i < |keys|
    ensures ItemOf(keys[..i] + keys[i + 1..], flag) == if flag == keys[i].flag then None else ItemOf(keys, flag)
  {
    var a, k, b := keys[..i], keys[i], keys[i + 1..];
    assert keys == a + ([k] + b);
    hide DistinctFlags;
    ItemOfConcat(a, [k] + b, flag);
    ItemOfConcat([k], b, flag);
    ItemOfConcat(a, b, flag);
    if flag == k.flag {
      assert !HasKey(a, flag) && !HasKey(b, flag) by {
        OnlyKey(keys, i, flag);
      }
    }
  }

  lemma OnlyKey(keys: seq<KeyItem>, i: nat, flag: string)
    requires DistinctFlags(keys) && i < |keys| && keys[i].flag == flag
    ensures IndexOf(keys, flag) == i
    ensures !HasKey(keys[..i], flag) && !HasKey(keys[i + 1..], flag)
  {
    assert forall j | 0 <= j < i :: keys[..i][j] == keys[j];
    assert forall j | i < j < |keys| :: keys[i + 1..][j - i - 1] == keys[j];
  }

  // ----- The abstract undo stack of one key

  /** The current value, none when unset, and the earlier values, newest first. */
  datatype KeyState = KeyState(current: Option<string>, stack: seq<WasEntry>)

  /** What the text says about a flag: `config get` and `config history`. */
  function StateOf(s: Section, r: Rules, flag: string): KeyState {
    KeyState(if HasKey(s.keys, flag) then Some(s.keys[IndexOf(s.keys, flag)].value) else None, KeyStack(s, r, flag))
  }

  /** Banking the current value on the stack. */
  function Banked(k: KeyState, stack: seq<WasEntry>, now: string): seq<WasEntry> {
    if k.current.Some? then Capped([WasEntry(k.current.value, now)] + stack) else stack
  }

  function SetState(k: KeyState, r: Rules, flag: string, value: string, now: string): KeyState {
    if !r.valid(flag, value) || (k.current.Some? && r.same(flag, k.current.value, value)) then k
    else KeyState(Some(value), Banked(k, k.stack, now))
  }

  function UnsetState(k: KeyState, now: string): KeyState {
    KeyState(None, Banked(k, k.stack, now))
  }

  function RevertState(k: KeyState, r: Rules, flag: string, to: Option<string>, now: string): KeyState {
    var i := Chosen(k.stack, to);
    if i >= |k.stack| || !r.valid(flag, k.stack[i].value) then k
    else KeyState(Some(k.stack[i].value), Banked(k, Without(k.stack, i), now))
  }

  // ----- The same state, read off the blocks instead of searched for

  function StateIn(keys: seq<KeyItem>, bs: seq<Block>, flag: string): KeyState {
    match ItemOf(keys, flag)
    case Some(k) => KeyState(Some(k.value), Split(k.prefix).stack)
    case None => KeyState(None, match Lookup(bs, flag) case Some(es) => es case None => [])
  }

  lemma StateIsFound(s: Section, r: Rules, flag: string)
    requires GoodBlocks(AllBlocks(s, r), s.keys, r)
    ensures StateOf(s, r, flag) == StateIn(s.keys, AllBlocks(s, r), flag)
  {
    assert Unique(AllBlocks(s, r));
    hide AllBlocks, FindOrphan, Split, GoodBlocks, Unique, BlockIn, IsPlace, Lookup;
    FindsOwnBlock(s, r, flag);
  }

  // ----- Adoption

  /** The prefix of a key whose comments hold no history and whose stack is `stack`. */
  function PlainPrefix(comments: seq<Line>, stack: seq<WasEntry>): Text {
    Text(comments + WasLines(stack), Blank)
  }

  lemma PlainPrefixIsGood(comments: seq<Line>, stack: seq<WasEntry>)
    requires AllComments(comments)
    ensures GoodHead(comments) && Blocks(comments, Blank) == []
    ensures Split(PlainPrefix(comments, stack)) == Pieces(Text(comments, Blank), stack, Blank)
  {
    GapOfComments(comments, Free);
    CommentsHoldNothing(comments, Blank);
    SplitAfterRender(comments, stack, Blank);
  }

  lemma {:induction false} WithoutTagOf(c: seq<Line>, w: seq<Line>, flag: string) returns (c': seq<Line>)
    requires AllComments(c) && c != [] && c[|c| - 1] == Tag(flag)
    ensures WithoutTag(c + w, flag) == c' + w && AllComments(c')
  {
    var all := c + w;
    if c[0] == Tag(flag) {
      c' := c[1..];
      assert all[1..] == c' + w;
    } else {
      c' := WithoutTagOf(c[1..], w, flag);
      assert all[1..] == c[1..] + w;
      Assoc([c[0]], c', w);
      c' := [c[0]] + c';
    }
  }

  lemma GoodWithout(bs: seq<Block>, n: nat, keys: seq<KeyItem>, keys': seq<KeyItem>, r: Rules)
    requires GoodBlocks(bs, keys, r) && n < |bs| && forall f :: HasKey(keys', f) ==> HasKey(keys, f)
    ensures GoodBlocks(Without(bs, n), keys', r)
  {
    LookupWithout(bs, n, "");
  }

  lemma AfterCut(s: Section, s': Section, r: Rules, p: Place, flag: string)
    requires GoodBlocks(AllBlocks(s, r), s.keys, r) && IsPlace(s, r, p) && CutOut(s, s', r, p)
    requires BlockIn(s, r, p).tag == Some(flag)
    ensures GoodBlocks(AllBlocks(s', r), s'.keys, r)
    ensures forall f :: Lookup(AllBlocks(s', r), f) == if f == flag then None else Lookup(AllBlocks(s, r), f)
  {
    hide AllBlocks, Before, BlockIn, Split, Blocks, Lookup, GoodBlocks, Without, HasKey, IsPlace, GoodKeys, Separated, AllLines;
    var all, n := AllBlocks(s, r), |Before(s, r, p)| + p.k;
    PlaceHoldsBlock(s, r, p);
    BlockGone(all, n, s.keys, r, flag);
    SameHasKeys(s.keys, s'.keys, r);
    GoodWithout(all, n, s.keys, s'.keys, r);
  }

  lemma BlockGone(bs: seq<Block>, n: nat, keys: seq<KeyItem>, r: Rules, flag: string)
    requires GoodBlocks(bs, keys, r) && n < |bs| && bs[n].tag == Some(flag)
    ensures forall f :: Lookup(Without(bs, n), f) == if f == flag then None else Lookup(bs, f)
  {
    forall f ensures Lookup(Without(bs, n), f) == if f == flag then None else Lookup(bs, f) {
      LookupWithout(bs, n, f);
    }
  }

  lemma SameHasKeys(a: seq<KeyItem>, b: seq<KeyItem>, r: Rules)
    requires SameKeys(a, b, r)
    ensures forall f :: HasKey(b, f) <==> HasKey(a, f)
  {
    hide Split;
    forall f ensures HasKey(b, f) <==> HasKey(a, f) {
      SameFlags(a, b, f);
    }
  }

  /** A section once the block of one flag is gone. */
  ghost predicate Released(s: Section, s': Section, r: Rules, flag: string) {
    && SameKeys(s.keys, s'.keys, r) && GoodKeys(s'.keys, r) && Separated(AllLines(s'.tail), Free)
    && GoodBlocks(AllBlocks(s', r), s'.keys, r)
    && forall f :: Lookup(AllBlocks(s', r), f) == if f == flag then None else Lookup(AllBlocks(s, r), f)
  }

  lemma CutReleases(s: Section, r: Rules, p: Place, flag: string) returns (comments: seq<Line>)
    requires WellFormed(s, r) && IsPlace(s, r, p) && BlockIn(s, r, p).tag == Some(flag)
    ensures var t := HolderText(s, p);
      && p.k < |Runs(AllLines(t))|
      && AllComments(comments)
      && WithoutTag(ExcisedBlock(t, p.k), flag) == comments + WasLines(BlockIn(s, r, p).entries)
      && Released(s, WithHolder(s, p, Excised(t, p.k)), r, flag)
  {
    var t := HolderText(s, p);
    hide AllBlocks, BlockIn, Split, Blocks, GoodKeys, GoodBlocks, Separated, AllLines, Runs, Excised, HolderText, WithHolder, ExcisedBlock, SameKeys, IsPlace, Lookup;
    var c := CutFromHolder(s, r, p);
    AfterCut(s, WithHolder(s, p, Excised(t, p.k)), r, p, flag);
    comments := WithoutTagOf(c, WasLines(BlockIn(s, r, p).entries), flag);
  }

  /** Adoption takes the flag's own block, and nothing else, out of the section. */
  lemma Adopts(s: Section, r: Rules, flag: string) returns (comments: seq<Line>)
    requires WellFormed(s, r)
    ensures AllComments(comments)
    ensures var a, own := Adopt(s, r, flag), Lookup(AllBlocks(s, r), flag);
      && a.prefix == (if own.Some? then Some(PlainPrefix(comments, own.value)) else None)
      && Released(s, a.section, r, flag)
  {
    assert Unique(AllBlocks(s, r));
    comments := [];
    var place := FindOrphan(s, r, flag);
    if place.Some? {
      assert IsPlace(s, r, place.value);
      hide *;
      FindsOwnBlock(s, r, flag);
      comments := CutReleases(s, r, place.value, flag);
      AdoptsFound(s, r, flag, place.value);
      PlainPrefixIs(comments, BlockIn(s, r, place.value).entries);
    } else {
      hide FindOrphan, AllBlocks, BlockIn, Split, Blocks, GoodKeys, GoodBlocks, Separated, AllLines, Lookup, Unique;
      FindsOwnBlock(s, r, flag);
    }
  }

  lemma PlainPrefixIs(comments: seq<Line>, stack: seq<WasEntry>)
    ensures PlainPrefix(comments, stack) == Text(comments + WasLines(stack), Blank)
  {
  }

  lemma AdoptsFound(s: Section, r: Rules, flag: string, p: Place)
    requires FindOrphan(s, r, flag) == Some(p) && p.k < |Runs(AllLines(HolderText(s, p)))|
    ensures var t := HolderText(s, p);
      Adopt(s, r, flag) == Adoption(WithHolder(s, p, Excised(t, p.k)), Some(Text(WithoutTag(ExcisedBlock(t, p.k), flag), Blank)))
  {
    hide FindOrphan, Runs, Excised, ExcisedBlock, WithHolder, HolderText, WithoutTag;
  }

  // ----- Changing a key that is set

  lemma BlocksKept(s: Section, r: Rules, i: nat, k: KeyItem)
    requires i < |s.keys| && k.flag == s.keys[i].flag
    requires OrphansOf(k, r.managed(k.flag)) == OrphansOf(s.keys[i], r.managed(k.flag))
    ensures AllBlocks(s.(keys := s.keys[i := k]), r) == AllBlocks(s, r)
  {
    var keys' := s.keys[i := k];
    hide Blocks, OrphansOf, TailBlocks;
    KeyBlocksAround(s.keys, i, r);
    KeyBlocksAround(keys', i, r);
    hide KeyBlocks;
    assert keys'[..i] == s.keys[..i] && keys'[i + 1..] == s.keys[i + 1..];
  }

  lemma KeysKept(keys: seq<KeyItem>, r: Rules, i: nat, k: KeyItem)
    requires GoodKeys(keys, r) && i < |keys| && k.flag == keys[i].flag && GoodKey(k, r.managed(k.flag))
    ensures GoodKeys(keys[i := k], r)
    ensures forall f :: HasKey(keys[i := k], f) <==> HasKey(keys, f)
  {
    hide GoodKey, IndexOf;
    forall f ensures HasKey(keys[i := k], f) <==> HasKey(keys, f) {
      SameFlags(keys, keys[i := k], f);
    }
  }

  lemma KeyReplaced(s: Section, r: Rules, i: nat, k: KeyItem)
    requires WellFormed(s, r) && i < |s.keys| && k.flag == s.keys[i].flag && GoodKey(k, r.managed(k.flag))
    requires OrphansOf(k, r.managed(k.flag)) == OrphansOf(s.keys[i], r.managed(k.flag))
    ensures var s' := s.(keys := s.keys[i := k]); WellFormed(s', r) && AllBlocks(s', r) == AllBlocks(s, r)
  {
    hide OrphansOf, Separated, GoodKey, AllBlocks, GoodKeys, HasKey, Unique, AllLines;
    BlocksKept(s, r, i, k);
    KeysKept(s.keys, r, i, k);
    GoodForSameFlags(AllBlocks(s, r), s.keys, s.keys[i := k], r);
  }

  lemma GoodForSameFlags(bs: seq<Block>, keys: seq<KeyItem>, keys': seq<KeyItem>, r: Rules)
    requires GoodBlocks(bs, keys, r) && forall f :: HasKey(keys', f) ==> HasKey(keys, f)
    ensures GoodBlocks(bs, keys', r)
  {
  }

  lemma StateAfterReplacing(s: Section, r: Rules, i: nat, k: KeyItem, flag: string)
    requires DistinctFlags(s.keys) && i < |s.keys| && k.flag == s.keys[i].flag
    ensures var s' := s.(keys := s.keys[i := k]);
      forall bs :: StateIn(s'.keys, bs, flag) ==
        if flag == k.flag then KeyState(Some(k.value), Split(k.prefix).stack) else StateIn(s.keys, bs, flag)
  {
    hide Split;
    SameFlags(s.keys, s.keys[i := k], flag);
    OnlyKey(s.keys, i, k.flag);
  }

  /** A key given a new value and stack keeps its head, so the section keeps its orphan blocks. */
  lemma ReplacedKey(s: Section, r: Rules, i: nat, stack: seq<WasEntry>, value: string, flag: string)
    requires WellFormed(s, r) && i < |s.keys| && r.managed(s.keys[i].flag) && SingleLine(value)
    ensures var k := s.keys[i];
      var p := Split(k.prefix);
      var s' := s.(keys := s.keys[i := KeyItem(k.flag, RenderStackBlock(p.head, stack, p.indent), value)]);
      && WellFormed(s', r)
      && StateOf(s', r, flag) == if flag == k.flag then KeyState(Some(value), stack) else StateOf(s, r, flag)
  {
    var k := s.keys[i];
    var p := Split(k.prefix);
    SplitHead(k.prefix);
    var k' := KeyItem(k.flag, RenderStackBlock(p.head, stack, p.indent), value);
    SplitAfterRender(p.head.lines, stack, p.indent);
    hide Blocks, Separated, GapAfter, AllBlocks, KeyStack;
    KeyReplaced(s, r, i, k');
    StateAfterReplacing(s, r, i, k', flag);
    StateIsFound(s, r, flag);
    StateIsFound(s.(keys := s.keys[i := k']), r, flag);
  }

  // ----- Adding a key

  lemma AddedBlocks(s: Section, r: Rules, k: KeyItem)
    requires OrphansOf(k, r.managed(k.flag)) == []
    ensures AllBlocks(s.(keys := s.keys + [k]), r) == AllBlocks(s, r)
  {
    hide Blocks, OrphansOf;
    KeyBlocksConcat(s.keys, [k], r);
    assert [k][1..] == [];
  }

  lemma StillGoodBlocks(bs: seq<Block>, keys: seq<KeyItem>, r: Rules, k: KeyItem)
    requires GoodBlocks(bs, keys, r) && Lookup(bs, k.flag).None?
    ensures GoodBlocks(bs, keys + [k], r)
  {
    LookupFinds(bs, k.flag);
    forall i | 0 <= i < |bs| ensures !HasKey(keys + [k], bs[i].tag.value) {
      ItemOfConcat(keys, [k], bs[i].tag.value);
    }
  }

  lemma StillGoodKeys(keys: seq<KeyItem>, r: Rules, k: KeyItem)
    requires GoodKeys(keys, r) && !HasKey(keys, k.flag) && GoodKey(k, r.managed(k.flag))
    ensures GoodKeys(keys + [k], r)
  {
    hide GoodKey;
    DistinctWith(keys, k);
  }

  /** A key added below the others with a plain prefix brings no orphan block. */
  lemma PlainKeyIsGood(k: KeyItem, comments: seq<Line>, stack: seq<WasEntry>)
    requires AllComments(comments) && k.prefix == PlainPrefix(comments, stack) && SingleLine(k.value)
    ensures OrphansOf(k, true) == [] && GoodKey(k, true)
  {
    hide Blocks, GoodHead;
    PlainPrefixIsGood(comments, stack);
  }

  lemma AddedKey(s: Section, r: Rules, k: KeyItem, comments: seq<Line>, stack: seq<WasEntry>)
    requires GoodKeys(s.keys, r) && Separated(AllLines(s.tail), Free) && GoodBlocks(AllBlocks(s, r), s.keys, r)
    requires r.managed(k.flag) && !HasKey(s.keys, k.flag) && Lookup(AllBlocks(s, r), k.flag).None?
    requires AllComments(comments) && k.prefix == PlainPrefix(comments, stack) && SingleLine(k.value)
    ensures var s' := s.(keys := s.keys + [k]);
      && WellFormed(s', r) && AllBlocks(s', r) == AllBlocks(s, r)
      && forall f :: ItemOf(s'.keys, f) == if f == k.flag then Some(k) else ItemOf(s.keys, f)
  {
    hide Blocks, OrphansOf, GoodKey, Separated, PlainPrefix, GoodKeys, GoodBlocks, AllBlocks, AllComments, SingleLine, Lookup;
    PlainKeyIsGood(k, comments, stack);
    AddedBlocks(s, r, k);
    StillGoodBlocks(AllBlocks(s, r), s.keys, r, k);
    StillGoodKeys(s.keys, r, k);
    forall f ensures ItemOf(s.keys + [k], f) == if f == k.flag then Some(k) else ItemOf(s.keys, f) {
      ItemOfConcat(s.keys, [k], f);
    }
  }

  lemma DistinctWith(keys: seq<KeyItem>, k: KeyItem)
    requires DistinctFlags(keys) && !HasKey(keys, k.flag)
    ensures DistinctFlags(keys + [k])
  {
    assert forall i | 0 <= i < |keys| :: keys[i].flag != k.flag;
  }

  lemma SameKeysSameItems(a: seq<KeyItem>, b: seq<KeyItem>, r: Rules, bs: seq<Block>, flag: string)
    requires SameKeys(a, b, r) && r.managed(flag)
    ensures StateIn(a, bs, flag) == StateIn(b, bs, flag) && (HasKey(a, flag) <==> HasKey(b, flag))
  {
    SameFlags(a, b, flag);
  }

  /** Recreating an unset key above its own history leaves every other key as it was. */
  lemma RecreatedKey(s: Section, r: Rules, flag: string, stack: seq<WasEntry>, value: string, other: string)
    requires WellFormed(s, r) && r.managed(flag) && r.managed(other) && !HasKey(s.keys, flag) && SingleLine(value)
    ensures var a := Adopt(s, r, flag);
      var p := Split(if a.prefix.Some? then a.prefix.value else EMPTY);
      var s' := a.section.(keys := a.section.keys + [KeyItem(flag, RenderStackBlock(p.head, stack, p.indent), value)]);
      && p.stack == StateOf(s, r, flag).stack
      && RenderStackBlock(p.head, p.stack, p.indent) == (if a.prefix.Some? then a.prefix.value else EMPTY)
      && WellFormed(s', r)
      && StateOf(s', r, other) == if other == flag then KeyState(Some(value), stack) else StateOf(s, r, other)
  {
    var comments := Adopts(s, r, flag);
    var a, own := Adopt(s, r, flag), Lookup(AllBlocks(s, r), flag);
    assert Released(s, a.section, r, flag);
    var prefix, es := if a.prefix.Some? then a.prefix.value else EMPTY, if own.Some? then own.value else [];
    var c := if own.Some? then comments else [];
    assert prefix == PlainPrefix(c, es);
    hide Adopt, AllBlocks, Blocks, Split, Separated, GoodKey, KeyStack;
    PlainPrefixIsGood(c, es);
    SameKeysSameItems(s.keys, a.section.keys, r, [], flag);
    var k := KeyItem(flag, PlainPrefix(c, stack), value);
    AddedKey(a.section, r, k, c, stack);
    var s' := a.section.(keys := a.section.keys + [k]);
    PlainPrefixIsGood(c, stack);
    StateIsFound(s, r, flag);
    StateIsFound(s, r, other);
    StateIsFound(s', r, other);
    SameKeysSameItems(s.keys, a.section.keys, r, AllBlocks(s, r), other);
  }

  // ----- Removing a key

  predicate Disjoint(a: seq<Block>, b: seq<Block>) {
    forall i, j | 0 <= i < |a| && 0 <= j < |b| :: a[i].tag != b[j].tag
  }

  lemma UniqueConcat(a: seq<Block>, b: seq<Block>)
    ensures Unique(a + b) <==> Unique(a) && Unique(b) && Disjoint(a, b)
  {
    var all := a + b;
    if Unique(all) {
      forall i | 0 <= i < |b| ensures b[i].tag.Some? { assert all[|a| + i].tag.Some?; }
      forall i, j | 0 <= i < j < |b| ensures b[i].tag != b[j].tag { assert all[|a| + i].tag != all[|a| + j].tag; }
      forall i, j | 0 <= i < |a| && 0 <= j < |b| ensures a[i].tag != b[j].tag { assert all[i].tag != all[|a| + j].tag; }
      forall i | 0 <= i < |a| ensures a[i].tag.Some? { assert all[i].tag.Some?; }
      forall i, j | 0 <= i < j < |a| ensures a[i].tag != a[j].tag { assert all[i].tag != all[j].tag; }
    }
  }

  lemma DisjointConcat(a: seq<Block>, b: seq<Block>, c: seq<Block>)
    ensures Disjoint(a + b, c) <==> Disjoint(a, c) && Disjoint(b, c)
    ensures Disjoint(c, a + b) <==> Disjoint(c, a) && Disjoint(c, b)
    ensures Disjoint(a, b) <==> Disjoint(b, a)
  {
    var all := a + b;
    assert forall i | 0 <= i < |a| :: all[i] == a[i];
    assert forall i | 0 <= i < |b| :: all[|a| + i] == b[i];
  }

  /** Blocks inserted into a unique list keep it unique exactly when their tags are new. */
  lemma UniqueInsert(x: seq<Block>, b: seq<Block>, y: seq<Block>)
    ensures Unique(x + b + y) <==> Unique(x + y) && Unique(b) && Disjoint(x + y, b)
  {
    UniqueConcat(x + b, y);
    UniqueConcat(x, b);
    UniqueConcat(x, y);
    DisjointConcat(x, b, y);
    DisjointConcat(x, y, b);
    DisjointConcat(b, y, x);
    hide Unique, Disjoint;
  }

  lemma LookupInsert(x: seq<Block>, b: seq<Block>, y: seq<Block>, flag: string)
    requires Disjoint(x + y, b)
    ensures Lookup(x + b + y, flag) == if Lookup(b, flag).Some? then Lookup(b, flag) else Lookup(x + y, flag)
  {
    LookupConcat(x + b, y, flag);
    LookupConcat(x, b, flag);
    LookupConcat(x, y, flag);
    LookupFinds(x + y, flag);
    LookupFinds(b, flag);
  }

  /** The tags are those of known flags that are not set. */
  predicate TagsUnset(bs: seq<Block>, keys: seq<KeyItem>, r: Rules) {
    forall i | 0 <= i < |bs| :: bs[i].tag.Some? && r.managed(bs[i].tag.value) && !HasKey(keys, bs[i].tag.value)
  }

  lemma TagsConcat(a: seq<Block>, b: seq<Block>, keys: seq<KeyItem>, r: Rules)
    ensures TagsUnset(a + b, keys, r) <==> TagsUnset(a, keys, r) && TagsUnset(b, keys, r)
  {
    var all := a + b;
    assert forall i | 0 <= i < |a| :: all[i] == a[i];
    assert forall i | 0 <= i < |b| :: all[|a| + i] == b[i];
  }

  /** Attaching a block inserts its blocks somewhere among those of the section. */
  lemma Attaches(s: Section, r: Rules, i: nat, block: Text, inHeader: bool) returns (x: seq<Block>, y: seq<Block>)
    requires GoodKeys(s.keys, r) && Separated(AllLines(s.tail), Free) && Separated(AllLines(block), Free)
    ensures var s' := AttachBlock(s, i, block, inHeader);
      && SameKeys(s.keys, s'.keys, r) && GoodKeys(s'.keys, r) && Separated(AllLines(s'.tail), Free)
      && x + y == AllBlocks(s, r) && AllBlocks(s', r) == x + Blocks(AllLines(block), Blank) + y
  {
    hide *;
    AttachBlockIs(s, i, block, inHeader);
    SameKeysAsThemselves(s.keys, r);
    if block == EMPTY {
      x, y := AttachesNothing(s, r);
    } else if i < |s.keys| {
      x, y := AttachesToKey(s, r, i, block);
    } else {
      x, y := AttachesToTail(s, r, block, inHeader);
    }
  }

  lemma AttachBlockIs(s: Section, i: nat, block: Text, inHeader: bool)
    ensures AttachBlock(s, i, block, inHeader) ==
            if block == EMPTY then s
            else if i < |s.keys| then s.(keys := s.keys[i := s.keys[i].(prefix := AttachAbove(block, s.keys[i].prefix))])
            else s.(tail := AttachTail(s.tail, block, inHeader))
  {
  }

  lemma SameKeysAsThemselves(keys: seq<KeyItem>, r: Rules)
    ensures SameKeys(keys, keys, r)
  {
  }

  lemma AttachesNothing(s: Section, r: Rules) returns (x: seq<Block>, y: seq<Block>)
    ensures x + y == AllBlocks(s, r) == x + Blocks(AllLines(EMPTY), Blank) + y
  {
    hide *;
    x, y := AllBlocks(s, r), [];
    EmptyHoldsNothing();
    assert x + [] == x;
  }

  lemma EmptyHoldsNothing()
    ensures Blocks(AllLines(EMPTY), Blank) == []
  {
    BlanksHoldNothing(AllLines(EMPTY), Blank);
  }

  lemma AttachesToTail(s: Section, r: Rules, block: Text, inHeader: bool) returns (x: seq<Block>, y: seq<Block>)
    requires Separated(AllLines(s.tail), Free) && Separated(AllLines(block), Free)
    ensures var s' := s.(tail := AttachTail(s.tail, block, inHeader));
      && Separated(AllLines(s'.tail), Free)
      && x + y == AllBlocks(s, r) && AllBlocks(s', r) == x + Blocks(AllLines(block), Blank) + y
  {
    hide Separated, KeyBlocks, Blocks, AllLines, AttachTail;
    x, y := AllBlocks(s, r), [];
    AttachTailHolds(s.tail, block, inHeader);
    Assoc(KeyBlocks(s.keys, r), TailBlocks(s), Blocks(AllLines(block), Blank));
  }

  lemma AttachesToKey(s: Section, r: Rules, i: nat, block: Text) returns (x: seq<Block>, y: seq<Block>)
    requires GoodKeys(s.keys, r) && Separated(AllLines(s.tail), Free) && Separated(AllLines(block), Free)
    requires i < |s.keys|
    ensures var k := s.keys[i];
      var s' := s.(keys := s.keys[i := k.(prefix := AttachAbove(block, k.prefix))]);
      && SameKeys(s.keys, s'.keys, r) && GoodKeys(s'.keys, r)
      && x + y == AllBlocks(s, r) && AllBlocks(s', r) == x + Blocks(AllLines(block), Blank) + y
  {
    var k := s.keys[i];
    var k', m := k.(prefix := AttachAbove(block, k.prefix)), r.managed(k.flag);
    hide *;
    KeysAttached(s.keys, r, i, block);
    x, y := BlocksAttached(s, r, i, k', Blocks(AllLines(block), Blank));
  }

  lemma KeysAttached(keys: seq<KeyItem>, r: Rules, i: nat, block: Text)
    requires GoodKeys(keys, r) && Separated(AllLines(block), Free) && i < |keys|
    ensures var k, m := keys[i], r.managed(keys[i].flag);
      var k' := k.(prefix := AttachAbove(block, k.prefix));
      && SameKeys(keys, keys[i := k'], r) && GoodKeys(keys[i := k'], r)
      && OrphansOf(k', m) == Blocks(AllLines(block), Blank) + OrphansOf(k, m)
  {
    var k, m := keys[i], r.managed(keys[i].flag);
    var k' := k.(prefix := AttachAbove(block, k.prefix));
    assert GoodKey(k, m);
    hide *;
    AttachedKey(k, m, block);
    KeysKept(keys, r, i, k');
    SameButOne(keys, r, i, k');
  }

  lemma SameButOne(keys: seq<KeyItem>, r: Rules, i: nat, k: KeyItem)
    requires i < |keys| && k.flag == keys[i].flag && k.value == keys[i].value
    requires r.managed(k.flag) ==> Split(k.prefix).stack == Split(keys[i].prefix).stack
    ensures SameKeys(keys, keys[i := k], r)
  {
    hide Split;
  }

  lemma BlocksAttached(s: Section, r: Rules, i: nat, k': KeyItem, bb: seq<Block>) returns (x: seq<Block>, y: seq<Block>)
    requires i < |s.keys| && k'.flag == s.keys[i].flag
    requires OrphansOf(k', r.managed(k'.flag)) == bb + OrphansOf(s.keys[i], r.managed(k'.flag))
    ensures x + y == AllBlocks(s, r) && AllBlocks(s.(keys := s.keys[i := k']), r) == x + bb + y
  {
    hide Blocks, OrphansOf;
    assert TailBlocks(s.(keys := s.keys[i := k'])) == TailBlocks(s);
    hide TailBlocks;
    var a, o, b, t := KeyBlocks(s.keys[..i], r), OrphansOf(s.keys[i], r.managed(k'.flag)), KeyBlocks(s.keys[i + 1..], r), TailBlocks(s);
    KeyBlocksAround(s.keys, i, r);
    KeyBlocksAround(s.keys[i := k'], i, r);
    hide KeyBlocks;
    assert s.keys[i := k'][..i] == s.keys[..i] && s.keys[i := k'][i + 1..] == s.keys[i + 1..];
    x, y := a, o + b + t;
    FourParts(a, bb, o, b, t);
  }

  lemma FourParts(a: seq<Block>, bb: seq<Block>, o: seq<Block>, b: seq<Block>, t: seq<Block>)
    ensures a + (bb + o) + b + t == a + bb + (o + b + t)
    ensures a + o + b + t == a + (o + b + t)
  {
  }

  lemma AttachedKey(k: KeyItem, managed: bool, block: Text)
    requires GoodKey(k, managed) && Separated(AllLines(block), Free)
    ensures var k' := k.(prefix := AttachAbove(block, k.prefix));
      && GoodKey(k', managed)
      && OrphansOf(k', managed) == Blocks(AllLines(block), Blank) + OrphansOf(k, managed)
      && (managed ==> Split(k'.prefix).stack == Split(k.prefix).stack)
  {
    if managed {
      SplitHead(k.prefix);
      var p := Split(k.prefix);
      var h := AllLines(TrimEnd(block)) + [Blank] + DropBlanks(p.head.lines);
      hide Blocks, Separated, GapAfter, DropBlanks, TrimEnd, AttachAbove, GoodHead;
      AttachKeepsStack(block, p.head.lines, WasLines(p.stack), p.indent);
      GoodHeadEnd(h);
      SplitAfterRender(h, p.stack, p.indent);
    } else {
      AttachedToUnknown(k.prefix, block);
    }
  }

  lemma AttachedToUnknown(t: Text, block: Text)
    requires IsWhite(t.tail) && Separated(AllLines(t), Free) && Separated(AllLines(block), Free)
    ensures var t' := AttachAbove(block, t);
      && IsWhite(t'.tail) && Separated(AllLines(t'), Free)
      && Blocks(AllLines(t'), Blank) == Blocks(AllLines(block), Blank) + Blocks(AllLines(t), Blank)
  {
    TailHoldsNothing(t);
    AttachKeepsStack(block, t.lines, [], t.tail);
    assert t.lines + [] == t.lines;
    TailHoldsNothing(AttachAbove(block, t));
  }

  lemma TailHoldsNothing(t: Text)
    requires IsWhite(t.tail)
    ensures Blocks(AllLines(t), Blank) == Blocks(t.lines, Blank)
    ensures Separated(AllLines(t), Free) <==> Separated(t.lines, Free)
  {
    assert Init(AllLines(t)) == t.lines;
    GapConcat(t.lines, [t.tail], Free);
  }
}
