/**
 The command suggestion of cmd/shift/help.go: the Levenshtein distance over bytes, computed with two rows that
 swap places, and the first known command of least distance below three.
 */
module EditDistance {
  import opened Wrappers

  newtype Byte = x: int | 0 <= x < 256

  type Text = seq<Byte>

  // ---------------------------------------------------------------- edit scripts, the independent notion

  datatype Edit = Insert(at: nat, value: Byte) | Delete(at: nat) | Substitute(at: nat, value: Byte)

  predicate Fits(s: Text, e: Edit) {
    if e.Insert? then e.at <= |s| else e.at < |s|
  }

  function Apply(s: Text, e: Edit): Text
    requires Fits(s, e)
  {
    match e
    case Insert(at, value) => s[..at] + [value] + s[at..]
    case Delete(at) => s[..at] + s[at + 1..]
    case Substitute(at, value) => s[..at] + [value] + s[at + 1..]
  }

  /** The script, one edit after the other at any positions, turns s into t. */
  predicate Leads(s: Text, script: seq<Edit>, t: Text)
    decreases |script|
  {
    if script == [] then s == t
    else Fits(s, script[0]) && Leads(Apply(s, script[0]), script[1..], t)
  }

  // ---------------------------------------------------------------- the recurrence of the table

  function Least(a: nat, b: nat, c: nat): nat {
    if a <= b && a <= c then a else if b <= c then b else c
  }

  function Init(s: Text): Text
    requires s != []
  {
    s[..|s| - 1]
  }

  function Cost(a: Text, b: Text): nat
    requires a != [] && b != []
  {
    if a[|a| - 1] == b[|b| - 1] then 0 else 1
  }

  function Dist(a: Text, b: Text): nat
    decreases |a| + |b|
  {
    if a == [] then |b|
    else if b == [] then |a|
    else Least(Dist(a, Init(b)) + 1, Dist(Init(a), b) + 1, Dist(Init(a), Init(b)) + Cost(a, b))
  }

  // ---------------------------------------------------------------- a metric

  lemma {:induction false} Symmetric(a: Text, b: Text)
    ensures Dist(a, b) == Dist(b, a)
    decreases |a| + |b|
  {
    if a != [] && b != [] {
      Symmetric(a, Init(b));
      Symmetric(Init(a), b);
      Symmetric(Init(a), Init(b));
    }
  }

  lemma {:induction false} LengthBounds(a: Text, b: Text)
    ensures |a| <= |b| + Dist(a, b) && |b| <= |a| + Dist(a, b) && Dist(a, b) <= |a| + |b|
    decreases |a| + |b|
  {
    if a != [] && b != [] {
      LengthBounds(a, Init(b));
      LengthBounds(Init(a), b);
      LengthBounds(Init(a), Init(b));
    }
  }

  /** Zero exactly between equal texts. */
  lemma {:induction false} ZeroIffEqual(a: Text, b: Text)
    ensures Dist(a, b) == 0 <==> a == b
    decreases |a| + |b|
  {
    if a != [] && b != [] {
      ZeroIffEqual(Init(a), Init(b));
      assert a == Init(a) + [a[|a| - 1]] && b == Init(b) + [b[|b| - 1]];
    }
  }

  /** The triangle inequality, by the last column of each of the two alignments. */
  lemma {:induction false} Triangle(a: Text, b: Text, c: Text)
    ensures Dist(a, c) <= Dist(a, b) + Dist(b, c)
    decreases |a| + |b| + |c|
  {
    if a == [] || b == [] || c == [] {
      LengthBounds(a, b);
      LengthBounds(b, c);
      LengthBounds(a, c);
    } else if Dist(a, b) == Dist(Init(a), b) + 1 {
      Triangle(Init(a), b, c);
    } else if Dist(b, c) == Dist(b, Init(c)) + 1 {
      Triangle(a, b, Init(c));
    } else if Dist(a, b) == Dist(a, Init(b)) + 1 && Dist(b, c) == Dist(Init(b), c) + 1 {
      Triangle(a, Init(b), c);
    } else if Dist(a, b) == Dist(a, Init(b)) + 1 {
      Triangle(a, Init(b), Init(c));
    } else if Dist(b, c) == Dist(Init(b), c) + 1 {
      Triangle(Init(a), Init(b), c);
    } else {
      Triangle(Init(a), Init(b), Init(c));
    }
  }

  // ---------------------------------------------------------------- the shortest script

  /** A common tail never adds to the distance. */
  lemma {:induction false} CommonTail(p: Text, q: Text, tail: Text)
    ensures Dist(p + tail, q + tail) <= Dist(p, q)
    decreases |tail|
  {
    if tail == [] {
      assert p + tail == p && q + tail == q;
    } else {
      CommonTail(p, q, Init(tail));
      assert Init(p + tail) == p + Init(tail) && Init(q + tail) == q + Init(tail);
    }
  }

  lemma LastInserted(p: Text, value: Byte)
    ensures Dist(p, p + [value]) <= 1
  {
    ZeroIffEqual(p, p);
    assert Init(p + [value]) == p;
  }

  lemma LastSubstituted(p: Text, was: Byte, value: Byte)
    ensures Dist(p + [was], p + [value]) <= 1
  {
    ZeroIffEqual(p, p);
    assert Init(p + [value]) == p && Init(p + [was]) == p;
  }

  /** One edit, wherever it is made, moves a text by at most one. */
  lemma OneEdit(s: Text, e: Edit)
    requires Fits(s, e)
    ensures Dist(s, Apply(s, e)) <= 1
  {
    var p := s[..e.at];
    if e.Insert? {
      LastInserted(p, e.value);
      CommonTail(p, p + [e.value], s[e.at..]);
      assert s == p + s[e.at..];
    } else {
      var tail := s[e.at + 1..];
      assert s == p + [s[e.at]] + tail;
      if e.Delete? {
        LastInserted(p, s[e.at]);
        Symmetric(p, p + [s[e.at]]);
        CommonTail(p + [s[e.at]], p, tail);
      } else {
        LastSubstituted(p, s[e.at], e.value);
        CommonTail(p + [s[e.at]], p + [e.value], tail);
      }
    }
  }

  /** No script is shorter than the distance. */
  lemma {:induction false} NoShorterScript(a: Text, script: seq<Edit>, b: Text)
    requires Leads(a, script, b)
    ensures Dist(a, b) <= |script|
    decreases |script|
  {
    if script == [] {
      ZeroIffEqual(a, b);
    } else {
      var next := Apply(a, script[0]);
      OneEdit(a, script[0]);
      NoShorterScript(next, script[1..], b);
      Triangle(a, next, b);
    }
  }

  lemma AppliedBefore(s: Text, e: Edit, last: Byte)
    requires Fits(s, e)
    ensures Fits(s + [last], e) && Apply(s + [last], e) == Apply(s, e) + [last]
  {
    var longer := s + [last];
    assert longer[..e.at] == s[..e.at];
    if e.Insert? {
      assert longer[e.at..] == s[e.at..] + [last];
    } else {
      assert longer[e.at + 1..] == s[e.at + 1..] + [last];
    }
  }

  /** A script works just as well in front of one more byte. */
  lemma {:induction false} Lifted(s: Text, script: seq<Edit>, t: Text, last: Byte)
    requires Leads(s, script, t)
    ensures Leads(s + [last], script, t + [last])
    decreases |script|
  {
    if script != [] {
      AppliedBefore(s, script[0], last);
      Lifted(Apply(s, script[0]), script[1..], t, last);
    }
  }

  lemma Prefixed(s: Text, e: Edit, script: seq<Edit>, t: Text)
    requires Fits(s, e) && Leads(Apply(s, e), script, t)
    ensures Leads(s, [e] + script, t)
  {
    assert ([e] + script)[1..] == script;
  }

  lemma {:induction false} Extended(s: Text, script: seq<Edit>, t: Text, e: Edit)
    requires Leads(s, script, t) && Fits(t, e)
    ensures Leads(s, script + [e], Apply(t, e))
    decreases |script|
  {
    if script == [] {
      assert (script + [e])[1..] == [];
    } else {
      Extended(Apply(s, script[0]), script[1..], t, e);
      assert (script + [e])[1..] == script[1..] + [e];
    }
  }

  /** A script of exactly the distance's length. */
  lemma {:induction false} ShortestScript(a: Text, b: Text) returns (script: seq<Edit>)
    ensures Leads(a, script, b) && |script| == Dist(a, b)
    decreases |a| + |b|
  {
    if a == [] && b == [] {
      script := [];
    } else if a == [] || (b != [] && Dist(a, b) == Dist(a, Init(b)) + 1) {
      script := ShortestScript(a, Init(b));
      script := InsertedLast(a, b, script);
    } else if b == [] || Dist(a, b) == Dist(Init(a), b) + 1 {
      script := ShortestScript(Init(a), b);
      assert Apply(a, Delete(|a| - 1)) == Init(a);
      Prefixed(a, Delete(|a| - 1), script, b);
      script := [Delete(|a| - 1)] + script;
    } else {
      script := ShortestScript(Init(a), Init(b));
      script := MatchedLast(a, b, script);
    }
  }

  lemma InsertedLast(a: Text, b: Text, rest: seq<Edit>) returns (script: seq<Edit>)
    requires b != [] && Leads(a, rest, Init(b))
    ensures Leads(a, script, b) && |script| == |rest| + 1
  {
    var e := Insert(|b| - 1, b[|b| - 1]);
    assert Apply(Init(b), e) == b;
    Extended(a, rest, Init(b), e);
    script := rest + [e];
  }

  lemma MatchedLast(a: Text, b: Text, rest: seq<Edit>) returns (script: seq<Edit>)
    requires a != [] && b != [] && Leads(Init(a), rest, Init(b))
    ensures Leads(a, script, b) && |script| == |rest| + Cost(a, b)
  {
    var last := b[|b| - 1];
    Lifted(Init(a), rest, Init(b), last);
    assert b == Init(b) + [last];
    script := rest;
    if Cost(a, b) == 0 {
      assert a == Init(a) + [last];
    } else {
      var e := Substitute(|a| - 1, last);
      assert Apply(a, e) == Init(a) + [last];
      Prefixed(a, e, rest, b);
      script := [e] + rest;
    }
  }

  /** The distance is the length of a shortest script. */
  lemma DistIsShortest(a: Text, b: Text)
    ensures exists script :: Leads(a, script, b) && |script| == Dist(a, b)
    ensures forall script | Leads(a, script, b) :: Dist(a, b) <= |script|
  {
    var script := ShortestScript(a, b);
    forall script | Leads(a, script, b) ensures Dist(a, b) <= |script| {
      NoShorterScript(a, script, b);
    }
  }

  // ---------------------------------------------------------------- the two rows

  method Min3(a: nat, b: nat, c: nat) returns (least: nat)
    ensures least == a || least == b || least == c
    ensures least <= a && least <= b && least <= c
  {
    least := a;
    if b < least { least := b; }
    if c < least { least := c; }
  }

  /** Row i of the table: the distances from the first i bytes of a to every prefix of b. */
  ghost function Row(a: Text, b: Text, i: nat): seq<nat>
    requires i <= |a|
  {
    seq(|b| + 1, k requires 0 <= k <= |b| => Dist(a[..i], b[..k]))
  }

  /** A row computed from the one above it, for byte x. */
  ghost predicate Follows(above: seq<nat>, row: seq<nat>, x: Byte, b: Text, i: nat) {
    && |above| == |row| == |b| + 1 && row[0] == i
    && forall j | 1 <= j <= |b| :: CellFollows(above, row, x, b, j)
  }

  ghost predicate CellFollows(above: seq<nat>, row: seq<nat>, x: Byte, b: Text, j: nat)
    requires 1 <= j <= |b| && |above| == |row| == |b| + 1
  {
    row[j] == Least(row[j - 1] + 1, above[j] + 1, above[j - 1] + if x == b[j - 1] then 0 else 1)
  }

  lemma RowFollows(a: Text, b: Text, i: nat)
    requires 1 <= i <= |a|
    ensures Follows(Row(a, b, i - 1), Row(a, b, i), a[i - 1], b, i)
  {
    var above, row, x := Row(a, b, i - 1), Row(a, b, i), a[i - 1];
    forall j | 1 <= j <= |b| ensures CellFollows(above, row, x, b, j) {
      assert Init(a[..i]) == a[..i - 1] && Init(b[..j]) == b[..j - 1];
    }
  }

  method FillRow(previous: array<nat>, current: array<nat>, x: Byte, b: Text, i: nat, ghost row: seq<nat>)
    requires previous != current && previous.Length == |b| + 1 && current.Length == |b| + 1
    requires Follows(previous[..], row, x, b, i)
    modifies current
    ensures current[..] == row
  {
    current[0] := i;
    for j := 1 to |b| + 1
      invariant current[..j] == row[..j]
    {
      var cost := 1;
      if x == b[j - 1] { cost := 0; }
      assert CellFollows(previous[..], row, x, b, j);
      assert current[j - 1] == row[j - 1];
      current[j] := Min3(current[j - 1] + 1, previous[j] + 1, previous[j - 1] + cost);
      assert current[..j + 1] == current[..j] + [current[j]];
    }
  }

  /** editDistance. DistIsShortest says what the distance is. */
  method Compute(a: Text, b: Text) returns (distance: nat)
    ensures distance == Dist(a, b)
  {
    if a == b {
      ZeroIffEqual(a, b);
      return 0;
    }
    var previous, current := new nat[|b| + 1], new nat[|b| + 1];
    for j := 0 to |b| + 1
      invariant forall k | 0 <= k < j :: previous[k] == k
    {
      previous[j] := j;
    }
    assert previous[..] == Row(a, b, 0);
    for i := 1 to |a| + 1
      invariant previous != current && fresh(previous) && fresh(current)
      invariant previous.Length == |b| + 1 && current.Length == |b| + 1
      invariant previous[..] == Row(a, b, i - 1)
    {
      RowFollows(a, b, i);
      FillRow(previous, current, a[i - 1], b, i, Row(a, b, i));
      previous, current := current, previous;
    }
    assert a[..|a|] == a && b[..|b|] == b;
    assert previous[..][|b|] == Dist(a, b);
    return previous[|b|];
  }

  // ---------------------------------------------------------------- suggestCommand

  /** The distances of all candidates. */
  ghost function Distances(text: Text, candidates: seq<Text>): seq<nat> {
    seq(|candidates|, k requires 0 <= k < |candidates| => Dist(text, candidates[k]))
  }

  /** Index k is the first least among the first count distances. */
  ghost predicate FirstLeast(distances: seq<nat>, count: nat, k: nat) {
    && k < count <= |distances|
    && (forall j | 0 <= j < count :: distances[k] <= distances[j])
    && (forall j | 0 <= j < k :: distances[k] < distances[j])
  }

  /** How far a suggestion may be from what was typed, exclusive. */
  const LIMIT: nat := 3

  /** One more distance: it takes the lead only if it is strictly less. */
  lemma NextLeader(distances: seq<nat>, count: nat, k: nat)
    requires count < |distances| && (count > 0 ==> FirstLeast(distances, count, k))
    ensures FirstLeast(distances, count + 1, if count == 0 || distances[count] < distances[k] then count else k)
  {
  }

  /** suggestCommand, for any lowering of the argument; an empty candidate is chosen but never suggested. */
  method SuggestCommand(argument: Text, toLower: Text -> Text, candidates: seq<Text>) returns (suggestion: Option<Text>, ghost at: nat)
    ensures candidates == [] ==> suggestion == None
    ensures candidates != [] ==>
      && FirstLeast(Distances(toLower(argument), candidates), |candidates|, at)
      && suggestion == if Dist(toLower(argument), candidates[at]) < 3 && candidates[at] != [] then Some(candidates[at]) else None
  {
    var lowered := toLower(argument);
    ghost var distances := Distances(lowered, candidates);
    var best: Text, bestDistance := [], LIMIT;
    at := 0;
    for n := 0 to |candidates|
      invariant n > 0 ==> FirstLeast(distances, n, at)
      invariant n == 0 || distances[at] >= LIMIT ==> best == [] && bestDistance == LIMIT
      invariant n > 0 && distances[at] < LIMIT ==> best == candidates[at] && bestDistance == distances[at]
    {
      NextLeader(distances, n, at);
      at := if n == 0 || distances[n] < distances[at] then n else at;
      var distance := Compute(lowered, candidates[n]);
      if distance < bestDistance {
        best, bestDistance := candidates[n], distance;
      }
    }
    suggestion := if best == [] then None else Some(best);
  }
}
