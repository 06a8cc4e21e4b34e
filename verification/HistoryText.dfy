/** The comment text between two TOML items, line by line. */
module HistoryText {
  // `src/config.rs` keeps a key's undo stack as `# was:` lines directly above the key, and the block an
  // `unset` leaves behind as an `# unset: <flag>` tag above such lines.

  datatype WasEntry = WasEntry(value: string, timestamp: string)

  /** One line, without its newline. `Was` and `Tag` are the two strict shapes, `Hash` is any
    * other line starting with '#', `Space` is non-empty white space, `Other` is the rest
    * (an indented comment). */
  datatype Line =
    | Was(entry: WasEntry)
    | Tag(flag: string)
    | Hash(text: string)
    | Blank
    | Space(text: string)
    | Other(text: string)

  /** `lines` each end in a newline; `tail` is what follows the last newline. */
  datatype Text = Text(lines: seq<Line>, tail: Line)

  const EMPTY := Text([], Blank)
  const HISTORY_CAP := 5

  predicate IsComment(l: Line) {
    l.Tag? || l.Hash?
  }

  predicate IsWhite(l: Line) {
    l.Blank? || l.Space?
  }

  /** All lines of a text, the unterminated one last. */
  function AllLines(t: Text): seq<Line> {
    t.lines + [t.tail]
  }

  function Init(ls: seq<Line>): seq<Line>
    requires ls != []
  {
    ls[..|ls| - 1]
  }

  predicate AllWas(ls: seq<Line>) {
    forall i | 0 <= i < |ls| :: ls[i].Was?
  }

  function WasLines(stack: seq<WasEntry>): (ls: seq<Line>)
    ensures |ls| == |stack| && AllWas(ls)
    ensures forall i | 0 <= i < |ls| :: ls[i] == Was(stack[i])
  {
    if stack == [] then [] else WasLines(stack[..|stack| - 1]) + [Was(stack[|stack| - 1])]
  }

  function Entries(ls: seq<Line>): (es: seq<WasEntry>)
    requires AllWas(ls)
    ensures |es| == |ls|
    ensures forall i | 0 <= i < |ls| :: ls[i].entry == es[i]
  {
    if ls == [] then [] else Entries(Init(ls)) + [ls[|ls| - 1].entry]
  }

  function Capped(stack: seq<WasEntry>): seq<WasEntry> {
    if |stack| <= HISTORY_CAP then stack else stack[..HISTORY_CAP]
  }
}
