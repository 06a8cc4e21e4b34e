/** The two-row edit distance of `src/config.rs` and the suggestion built on it. */
module EditDistance {
  import opened Wrappers

  function Min(x: nat, y: nat): nat {
    if x <= y then x else y
  }

  function Init(s: string): string
    requires s != ""
  {
    s[..|s| - 1]
  }

  function Last(s: string): char
    requires s != ""
  {
    s[|s| - 1]
  }

  function Differ(x: char, y: char): nat {
    if x == y then 0 else 1
  }

  /** The recursive minimum edit distance, by the last edit. */
  function Lev(a: string, b: string): nat
    decreases |a| + |b|
  {
    if a == "" then |b|
    else if b == "" then |a|
    else Min(Min(Lev(Init(a), Init(b)) + Differ(Last(a), Last(b)), Lev(Init(a), b) + 1), Lev(a, Init(b)) + 1)
  }

  // ----- The loop

  /** The first `n` cells of the table row for `a`. */
  ghost predicate IsRow(row: seq<nat>, a: string, b: string, n: nat)
    requires n <= |b| + 1
  {
    |row| == n && forall k | 0 <= k < n :: row[k] == Lev(a, b[..k])
  }

  /** levenshtein: row `i` of the distance table from row `i - 1`, cell by cell. */
  method Levenshtein(a: string, b: string) returns (d: nat)
    ensures d == Lev(a, b)
  {
    var prev: seq<nat> := [];
    for j := 0 to |b| + 1
      invariant IsRow(prev, "", b, j)
    {
      prev := prev + [j];
    }
    assert a[..0] == "";
    for i := 0 to |a|
      invariant IsRow(prev, a[..i], b, |b| + 1)
    {
      var cur: seq<nat> := [i + 1];
      assert IsRow(cur, a[..i + 1], b, 1);
      hide Lev, IsRow;
      for j := 0 to |b|
        invariant IsRow(cur, a[..i + 1], b, j + 1)
      {
        RowsHaveCells(prev, cur, a, b, i, j);
        cur := cur + [Min(Min(prev[j] + Differ(a[i], b[j]), prev[j + 1] + 1), cur[j] + 1)];
      }
      prev := cur;
    }
    assert a[..|a|] == a && b[..|b|] == b;
    d := prev[|b|];
  }

  lemma {:induction false} RowsHaveCells(prev: seq<nat>, cur: seq<nat>, a: string, b: string, i: nat, j: nat)
    requires i < |a| && j < |b| && IsRow(prev, a[..i], b, |b| + 1) && IsRow(cur, a[..i + 1], b, j + 1)
    ensures |prev| == |b| + 1 && |cur| == j + 1
    ensures IsRow(cur + [Min(Min(prev[j] + Differ(a[i], b[j]), prev[j + 1] + 1), cur[j] + 1)], a[..i + 1], b, j + 2)
  {
    hide Lev;
    NextCell(a, b, i, j);
  }

  lemma NextCell(a: string, b: string, i: nat, j: nat)
    requires i < |a| && j < |b|
    ensures Lev(a[..i + 1], b[..j + 1]) ==
            Min(Min(Lev(a[..i], b[..j]) + Differ(a[i], b[j]), Lev(a[..i], b[..j + 1]) + 1), Lev(a[..i + 1], b[..j]) + 1)
  {
    assert Init(a[..i + 1]) == a[..i] && Init(b[..j + 1]) == b[..j];
  }

  // ----- The distance is a metric

  lemma {:induction false} Symmetric(a: string, b: string)
    ensures Lev(a, b) == Lev(b, a)
    decreases |a| + |b|
  {
    if a != "" && b != "" {
      Symmetric(Init(a), Init(b));
      Symmetric(Init(a), b);
      Symmetric(a, Init(b));
    }
  }

  lemma {:induction false} ZeroIffEqual(a: string, b: string)
    ensures Lev(a, b) == 0 <==> a == b
    decreases |a| + |b|
  {
    if a != "" && b != "" {
      ZeroIffEqual(Init(a), Init(b));
      assert a == Init(a) + [Last(a)] && b == Init(b) + [Last(b)];
    }
  }

  /** The distance bridges the difference in length. */
  lemma {:induction false} AtLeastLengths(a: string, b: string)
    ensures |a| <= Lev(a, b) + |b| && |b| <= Lev(a, b) + |a|
    decreases |a| + |b|
  {
    if a != "" && b != "" {
      AtLeastLengths(Init(a), Init(b));
      AtLeastLengths(Init(a), b);
      AtLeastLengths(a, Init(b));
    }
  }

  /** One more character on one side costs at most one edit. */
  lemma OneMore(a: string, b: string)
    ensures a != "" ==> Lev(a, b) <= Lev(Init(a), b) + 1
    ensures b != "" ==> Lev(a, b) <= Lev(a, Init(b)) + 1
  {
  }

  /** Via the last edits of the two shortest scripts, nine cases. */
  lemma {:induction false} Triangle(a: string, b: string, c: string)
    ensures Lev(a, c) <= Lev(a, b) + Lev(b, c)
    decreases |a| + |b| + |c|
  {
    AtLeastLengths(a, b);
    AtLeastLengths(b, c);
    AtMostLengths(a, c);
    if a != "" && b != "" && c != "" {
      OneMore(a, c);
      Triangle(Init(a), b, c);
      Triangle(a, b, Init(c));
      Triangle(a, Init(b), c);
      Triangle(a, Init(b), Init(c));
      Triangle(Init(a), Init(b), c);
      Triangle(Init(a), Init(b), Init(c));
    }
  }

  lemma {:induction false} AtMostLengths(a: string, c: string)
    ensures Lev(a, c) <= |a| + |c|
    decreases |a| + |c|
  {
    if a != "" && c != "" {
      AtMostLengths(Init(a), c);
    }
  }

  // ----- The distance is the least number of single-character edits

  datatype Edit = Insert(at: nat, c: char) | Delete(at: nat) | Replace(at: nat, c: char)

  predicate Applies(e: Edit, s: string) {
    if e.Insert? then e.at <= |s| else e.at < |s|
  }

  function Edited(s: string, e: Edit): string
    requires Applies(e, s)
  {
    match e
    case Insert(i, c) => s[..i] + [c] + s[i..]
    case Delete(i) => s[..i] + s[i + 1..]
    case Replace(i, c) => s[..i] + [c] + s[i + 1..]
  }

  /** The edits, one after the other, make `b` of `a`. */
  predicate Turns(a: string, script: seq<Edit>, b: string)
    decreases |script|
  {
    if script == [] then a == b
    else Applies(script[0], a) && Turns(Edited(a, script[0]), script[1..], b)
  }

  lemma {:induction false} CommonEnd(a: string, b: string, end: string)
    ensures Lev(a + end, b + end) <= Lev(a, b)
    decreases |end|
  {
    if end == "" {
      assert a + end == a && b + end == b;
    } else {
      assert Init(a + end) == a + Init(end) && Init(b + end) == b + Init(end);
      CommonEnd(a, b, Init(end));
    }
  }

  lemma NearEnds(p: string, c: char, d: char)
    ensures Lev(p, p + [c]) <= 1 && Lev(p + [c], p) <= 1 && Lev(p + [c], p + [d]) <= 1
  {
    ZeroIffEqual(p, p);
    assert Init(p + [c]) == p && Init(p + [d]) == p;
  }

  lemma Around(s: string, i: nat)
    requires i < |s|
    ensures s == s[..i] + [s[i]] + s[i + 1..]
  {
  }

  lemma OneEditIsNear(s: string, e: Edit)
    requires Applies(e, s)
    ensures Lev(s, Edited(s, e)) <= 1
  {
    hide Lev;
    var p := s[..e.at];
    match e
    case Insert(i, c) =>
      NearEnds(p, c, c);
      CommonEnd(p, p + [c], s[i..]);
      assert s == p + s[i..];
    case Delete(i) =>
      Around(s, i);
      NearEnds(p, s[i], s[i]);
      CommonEnd(p + [s[i]], p, s[i + 1..]);
    case Replace(i, c) =>
      Around(s, i);
      NearEnds(p, s[i], c);
      CommonEnd(p + [s[i]], p + [c], s[i + 1..]);
  }

  /** No script is shorter than the distance. */
  lemma {:induction false} NoShorterScript(a: string, script: seq<Edit>, b: string)
    requires Turns(a, script, b)
    ensures Lev(a, b) <= |script|
    decreases |script|
  {
    if script == [] {
      ZeroIffEqual(a, b);
    } else {
      var next := Edited(a, script[0]);
      OneEditIsNear(a, script[0]);
      NoShorterScript(next, script[1..], b);
      Triangle(a, next, b);
    }
  }

  lemma EditedWithEnd(a: string, e: Edit, end: string)
    requires Applies(e, a)
    ensures Applies(e, a + end) && Edited(a + end, e) == Edited(a, e) + end
  {
    assert (a + end)[..e.at] == a[..e.at] && (a + end)[e.at..] == a[e.at..] + end;
    if !e.Insert? {
      assert (a + end)[e.at + 1..] == a[e.at + 1..] + end;
    }
  }

  lemma {:induction false} TurnsWithEnd(a: string, script: seq<Edit>, b: string, end: string)
    requires Turns(a, script, b)
    ensures Turns(a + end, script, b + end)
    decreases |script|
  {
    if script != [] {
      EditedWithEnd(a, script[0], end);
      TurnsWithEnd(Edited(a, script[0]), script[1..], b, end);
      hide Edited;
    }
  }

  lemma {:induction false} TurnsThen(a: string, script: seq<Edit>, b: string, e: Edit)
    requires Turns(a, script, b) && Applies(e, b)
    ensures Turns(a, script + [e], Edited(b, e))
    decreases |script|
  {
    if script == [] {
      assert script + [e] == [e] && [e][1..] == [];
    } else {
      assert (script + [e])[1..] == script[1..] + [e];
      TurnsThen(Edited(a, script[0]), script[1..], b, e);
    }
  }

  lemma EditedAtEnd(b: string, x: char, y: char)
    ensures Edited(b, Insert(|b|, y)) == b + [y]
    ensures Edited(b + [x], Delete(|b|)) == b
    ensures Edited(b + [x], Replace(|b|, y)) == b + [y]
  {
    var s := b + [x];
    assert s[..|b|] == b && s[|b| + 1..] == "";
    assert b[..|b|] == b && b[|b|..] == "";
  }

  lemma Rejoin(s: string)
    requires s != ""
    ensures Init(s) + [Last(s)] == s
  {
  }

  lemma {:induction false} TurnsInserting(a: string, script: seq<Edit>, b: string)
    requires b != "" && Turns(a, script, Init(b))
    ensures Turns(a, script + [Insert(|b| - 1, Last(b))], b)
  {
    hide Turns, Edited;
    Rejoin(b);
    EditedAtEnd(Init(b), Last(b), Last(b));
    TurnsThen(a, script, Init(b), Insert(|b| - 1, Last(b)));
  }

  lemma {:induction false} TurnsDeleting(a: string, script: seq<Edit>, b: string)
    requires a != "" && Turns(Init(a), script, b)
    ensures Turns(a, script + [Delete(|b|)], b)
  {
    hide Turns, Edited;
    Rejoin(a);
    EditedAtEnd(b, Last(a), Last(a));
    TurnsWithEnd(Init(a), script, b, [Last(a)]);
    TurnsThen(a, script, b + [Last(a)], Delete(|b|));
  }

  lemma {:induction false} TurnsReplacing(a: string, script: seq<Edit>, b: string)
    requires a != "" && b != "" && Turns(Init(a), script, Init(b))
    ensures Last(a) == Last(b) ==> Turns(a, script, b)
    ensures Turns(a, script + [Replace(|b| - 1, Last(b))], b)
  {
    hide Turns, Edited;
    Rejoin(a);
    Rejoin(b);
    EditedAtEnd(Init(b), Last(a), Last(b));
    TurnsWithEnd(Init(a), script, Init(b), [Last(a)]);
    TurnsThen(a, script, Init(b) + [Last(a)], Replace(|b| - 1, Last(b)));
  }

  /** A script as short as the distance exists. */
  lemma {:induction false} ShortestScript(a: string, b: string) returns (script: seq<Edit>)
    ensures Turns(a, script, b) && |script| == Lev(a, b)
    decreases |a| + |b|
  {
    if a == "" && b == "" {
      script := [];
    } else if b != "" && (a == "" || Lev(a, b) == Lev(a, Init(b)) + 1) {
      script := ShortestScript(a, Init(b));
      hide Turns;
      TurnsInserting(a, script, b);
      script := script + [Insert(|b| - 1, Last(b))];
    } else if b == "" || Lev(a, b) == Lev(Init(a), b) + 1 {
      script := ShortestScript(Init(a), b);
      hide Turns;
      TurnsDeleting(a, script, b);
      script := script + [Delete(|b|)];
    } else {
      script := ShortestScript(Init(a), Init(b));
      hide Turns;
      TurnsReplacing(a, script, b);
      if Last(a) != Last(b) {
        script := script + [Replace(|b| - 1, Last(b))];
      }
    }
  }

  // ----- Did you mean

  const NEAR: nat := 3

  /** did_you_mean: the first registry key nearest to `key` and within three edits of it; none
    * exactly when no registry key is that near. */
  method DidYouMean(key: string, registry: seq<string>) returns (best: Option<string>)
    ensures best.None? <==> forall i | 0 <= i < |registry| :: Lev(key, registry[i]) > NEAR
    ensures best.Some? ==> exists i | 0 <= i < |registry| ::
      && registry[i] == best.value && Lev(key, registry[i]) <= NEAR
      && (forall j | 0 <= j < |registry| :: Lev(key, registry[i]) <= Lev(key, registry[j]))
      && (forall j | 0 <= j < i :: Lev(key, registry[i]) < Lev(key, registry[j]))
  {
    hide Lev;
    var found: Option<(string, nat)> := None;
    ghost var at: nat := 0;
    for i := 0 to |registry|
      invariant found.None? ==> forall j | 0 <= j < i :: Lev(key, registry[j]) > NEAR
      invariant found.Some? ==>
        && at < i && registry[at] == found.value.0 && Lev(key, registry[at]) == found.value.1 <= NEAR
        && (forall j | 0 <= j < i :: found.value.1 <= Lev(key, registry[j]))
        && (forall j | 0 <= j < at :: found.value.1 < Lev(key, registry[j]))
    {
      var d := Levenshtein(key, registry[i]);
      if d <= NEAR && (found.None? || d < found.value.1) {
        found := Some((registry[i], d));
        at := i;
      }
    }
    best := if found.Some? then Some(found.value.0) else None;
  }
}
