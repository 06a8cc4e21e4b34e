/** One `[section]` of the config file: its keys, their history, and its orphan blocks. */
module ConfigSection {
  import opened HistoryBlocks
  import opened HistoryHolders
  import opened HistoryRuns
  import opened HistoryStack
  import opened HistoryText
  import opened TaggedRuns
  import opened Wrappers

  // The operations are `set_value`, `unset_value` and `revert_value` of `src/config.rs` on the parsed
  // document.

  datatype KeyItem = KeyItem(flag: string, prefix: Text, value: string)

  /** `tail` is the text after the section's last key: the next section's header prefix, or the
    * document's trailing text. */
  datatype Section = Section(keys: seq<KeyItem>, tail: Text)

  /** What the registry says about one section: which flags it knows, which values a flag takes,
    * and when two values of a flag are the same. */
  datatype Rules = Rules(managed: string -> bool, valid: (string, string) -> bool, same: (string, string, string) -> bool)

  /** A value is banked only when it renders on one line. */
  predicate SingleLine(value: string) {
    '\n' !in value
  }

  function IndexOf(keys: seq<KeyItem>, flag: string): (i: nat)
    ensures i <= |keys| && (i < |keys| ==> keys[i].flag == flag)
    ensures forall j | 0 <= j < i :: keys[j].flag != flag
  {
    if keys == [] || keys[0].flag == flag then 0 else 1 + IndexOf(keys[1..], flag)
  }

  predicate HasKey(keys: seq<KeyItem>, flag: string) {
    IndexOf(keys, flag) < |keys|
  }

  // ----- Orphan blocks of a section

  /** gather_orphans for one key: the blocks of its prefix that are not its own stack. */
  function OrphansOf(k: KeyItem, managed: bool): seq<Block> {
    if managed then Blocks(Split(k.prefix).head.lines, Blank) else Blocks(AllLines(k.prefix), Blank)
  }

  function KeyBlocks(keys: seq<KeyItem>, r: Rules): seq<Block> {
    if keys == [] then [] else OrphansOf(keys[0], r.managed(keys[0].flag)) + KeyBlocks(keys[1..], r)
  }

  function TailBlocks(s: Section): seq<Block> {
    Blocks(AllLines(s.tail), Blank)
  }

  function AllBlocks(s: Section, r: Rules): seq<Block> {
    KeyBlocks(s.keys, r) + TailBlocks(s)
  }

  /** Where an orphan block is: the k-th run of a key's prefix or of the section's tail. */
  datatype Place = InKey(i: nat, k: nat) | InTail(k: nat)

  predicate IsPlace(s: Section, r: Rules, p: Place) {
    match p
    case InKey(i, k) => i < |s.keys| && k < |OrphansOf(s.keys[i], r.managed(s.keys[i].flag))|
    case InTail(k) => k < |TailBlocks(s)|
  }

  function BlockIn(s: Section, r: Rules, p: Place): Block
    requires IsPlace(s, r, p)
  {
    match p
    case InKey(i, k) => OrphansOf(s.keys[i], r.managed(s.keys[i].flag))[k]
    case InTail(k) => TailBlocks(s)[k]
  }

  function FirstIn(bs: seq<Block>, p: Block -> bool): (i: nat)
    ensures i <= |bs| && (i < |bs| ==> p(bs[i]))
    ensures forall j | 0 <= j < i :: !p(bs[j])
  {
    if bs == [] || p(bs[0]) then 0 else 1 + FirstIn(bs[1..], p)
  }

  /** The first orphan block in file order, from key `i` on, that satisfies `p`. */
  function FirstPlace(s: Section, r: Rules, p: Block -> bool, i: nat): (place: Option<Place>)
    requires i <= |s.keys|
    ensures place.Some? ==> IsPlace(s, r, place.value) && p(BlockIn(s, r, place.value))
    decreases |s.keys| - i
  {
    if i == |s.keys| then
      var k := FirstIn(TailBlocks(s), p);
      if k < |TailBlocks(s)| then Some(InTail(k)) else None
    else
      var bs := OrphansOf(s.keys[i], r.managed(s.keys[i].flag));
      var k := FirstIn(bs, p);
      if k < |bs| then Some(InKey(i, k)) else FirstPlace(s, r, p, i + 1)
  }

  predicate Fits(b: Block, r: Rules, flag: string) {
    forall i | 0 <= i < |b.entries| :: r.valid(flag, b.entries[i].value)
  }

  function TaggedFor(flag: string): Block -> bool {
    (b: Block) => b.tag == Some(flag)
  }

  function UntaggedFor(r: Rules, flag: string): Block -> bool {
    (b: Block) => b.tag.None? && Fits(b, r, flag)
  }

  /** find_orphan: the block tagged for the flag, else the first untagged one that fits it. */
  function FindOrphan(s: Section, r: Rules, flag: string): (place: Option<Place>)
    ensures place.Some? ==> IsPlace(s, r, place.value)
  {
    match FirstPlace(s, r, TaggedFor(flag), 0)
    case Some(p) => Some(p)
    case None => FirstPlace(s, r, UntaggedFor(r, flag), 0)
  }

  // ----- Adopting a block

  /** The block without its tag line: `replacen(.., "", 1)` on a text whose other comment lines do
    * not end in that tag. */
  function WithoutTag(block: seq<Line>, flag: string): seq<Line> {
    if block == [] then []
    else if block[0] == Tag(flag) then block[1..]
    else [block[0]] + WithoutTag(block[1..], flag)
  }

  datatype Adoption = Adoption(section: Section, prefix: Option<Text>)

  /** The text a place is in. */
  function HolderText(s: Section, p: Place): Text
    requires p.InKey? ==> p.i < |s.keys|
  {
    if p.InKey? then s.keys[p.i].prefix else s.tail
  }

  function WithHolder(s: Section, p: Place, t: Text): Section
    requires p.InKey? ==> p.i < |s.keys|
  {
    if p.InKey? then s.(keys := s.keys[p.i := s.keys[p.i].(prefix := t)]) else s.(tail := t)
  }

  /** adopt_orphan: takes the flag's block out of its holder, for the prefix of a recreated key. */
  function Adopt(s: Section, r: Rules, flag: string): Adoption {
    match FindOrphan(s, r, flag)
    case None => Adoption(s, None)
    case Some(p) =>
      var t := HolderText(s, p);
      if p.k < |Runs(AllLines(t))| then
        Adoption(WithHolder(s, p, Excised(t, p.k)), Some(Text(WithoutTag(ExcisedBlock(t, p.k), flag), Blank)))
      else Adoption(s, None)
  }

  // ----- set, unset, revert

  function SetKey(s: Section, r: Rules, flag: string, value: string, now: string): Section {
    if !r.managed(flag) || !r.valid(flag, value) then s
    else if HasKey(s.keys, flag) then
      var i := IndexOf(s.keys, flag);
      var k := s.keys[i];
      if r.same(flag, k.value, value) then s
      else
        var prefix := if SingleLine(k.value) then PushStack(k.prefix, WasEntry(k.value, now)) else k.prefix;
        s.(keys := s.keys[i := KeyItem(flag, prefix, value)])
    else
      var a := Adopt(s, r, flag);
      var prefix := if a.prefix.Some? then a.prefix.value else EMPTY;
      a.section.(keys := a.section.keys + [KeyItem(flag, prefix, value)])
  }

  /** A removed key's prefix without the key's own indent. */
  function Unindented(t: Text): Text {
    if IsWhite(t.tail) then Text(t.lines, Blank) else t
  }

  /** attach_block: above the key now at `i`, or at the section's end. */
  function AttachBlock(s: Section, i: nat, block: Text, inHeader: bool): Section {
    if block == EMPTY then s
    else if i < |s.keys| then s.(keys := s.keys[i := s.keys[i].(prefix := AttachAbove(block, s.keys[i].prefix))])
    else s.(tail := AttachTail(s.tail, block, inHeader))
  }

  /** The block an unset key leaves behind; an unknown key leaves its comments. */
  function LeftBehind(k: KeyItem, managed: bool, now: string): Text {
    var prefix := Unindented(k.prefix);
    if managed && SingleLine(k.value) then
      var p := Split(prefix);
      RenderOrphanBlock(p.head, k.flag, Capped([WasEntry(k.value, now)] + p.stack))
    else prefix
  }

  function UnsetKey(s: Section, r: Rules, flag: string, now: string, inHeader: bool): Section {
    if !HasKey(s.keys, flag) then s
    else
      var i := IndexOf(s.keys, flag);
      var without := s.(keys := s.keys[..i] + s.keys[i + 1..]);
      AttachBlock(without, i, LeftBehind(s.keys[i], r.managed(flag), now), inHeader)
  }

  /** key_stack: the run directly above the key, or the block it left behind when unset. */
  function KeyStack(s: Section, r: Rules, flag: string): seq<WasEntry> {
    if HasKey(s.keys, flag) then Split(s.keys[IndexOf(s.keys, flag)].prefix).stack
    else match FindOrphan(s, r, flag)
      case Some(p) => BlockIn(s, r, p).entries
      case None => []
  }

  /** The entry a revert restores: the newest, or the first with the given timestamp. */
  function Chosen(stack: seq<WasEntry>, to: Option<string>): (i: nat)
    ensures i <= |stack|
  {
    if stack == [] then 0
    else match to
      case None => 0
      case Some(ts) => if stack[0].timestamp == ts then 0 else 1 + Chosen(stack[1..], to)
  }

  function RevertKey(s: Section, r: Rules, flag: string, to: Option<string>, now: string): Section {
    var stack := KeyStack(s, r, flag);
    var i := Chosen(stack, to);
    if !r.managed(flag) || i >= |stack| || !r.valid(flag, stack[i].value) then s
    else if HasKey(s.keys, flag) then
      var j := IndexOf(s.keys, flag);
      var k := s.keys[j];
      var rest := if SingleLine(k.value) then Capped([WasEntry(k.value, now)] + Without(stack, i)) else Without(stack, i);
      var p := Split(k.prefix);
      s.(keys := s.keys[j := KeyItem(flag, RenderStackBlock(p.head, rest, p.indent), stack[i].value)])
    else
      var a := Adopt(s, r, flag);
      var p := Split(if a.prefix.Some? then a.prefix.value else EMPTY);
      a.section.(keys := a.section.keys + [KeyItem(flag, RenderStackBlock(p.head, Without(stack, i), p.indent), stack[i].value)])
  }
}
