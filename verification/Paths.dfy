/** The lexical path operations of Go's path/filepath on a system whose separator is a slash. */
module FilePath {
  import opened Wrappers

  const DOT: string := "."
  const UP: string := ".."
  const SLASH: string := "/"

  function Split(s: string): (parts: seq<string>)
    ensures parts != []
  {
    if s == [] then [[]]
    else if s[0] == '/' then [[]] + Split(s[1..])
    else Prepend(s[0], Split(s[1..]))
  }

  function Prepend(c: char, parts: seq<string>): (r: seq<string>)
    requires parts != []
    ensures r != []
  {
    [[c] + parts[0]] + parts[1..]
  }

  function Join(parts: seq<string>): string {
    if parts == [] then [] else if |parts| == 1 then parts[0] else parts[0] + SLASH + Join(parts[1..])
  }

  predicate Absolute(s: string) {
    s != [] && s[0] == '/'
  }

  /** One component of a path against the components kept so far. */
  function Push(rooted: bool, kept: seq<string>, part: string): seq<string> {
    if part == [] || part == DOT then kept
    else if part != UP then kept + [part]
    else if kept != [] && kept[|kept| - 1] != UP then kept[..|kept| - 1]
    else if rooted then kept
    else kept + [UP]
  }

  function PushAll(rooted: bool, kept: seq<string>, parts: seq<string>): seq<string>
    decreases |parts|
  {
    if parts == [] then kept else PushAll(rooted, Push(rooted, kept, parts[0]), parts[1..])
  }

  /** The components of the cleaned path. */
  function Parts(s: string): seq<string> {
    PushAll(Absolute(s), [], Split(s))
  }

  /** filepath.Clean. */
  function Clean(s: string): string {
    if Absolute(s) then SLASH + Join(Parts(s))
    else if Parts(s) == [] then DOT
    else Join(Parts(s))
  }

  predicate Rooted(s: string) {
    Absolute(s) && Clean(s) == s
  }

  /** How many leading components two paths share. */
  function Common(a: seq<string>, b: seq<string>): (k: nat)
    ensures k <= |a| && k <= |b| && a[..k] == b[..k]
    ensures k < |a| && k < |b| ==> a[k] != b[k]
  {
    if a == [] || b == [] || a[0] != b[0] then 0
    else
      var k := Common(a[1..], b[1..]);
      assert a[..k + 1] == [a[0]] + a[1..][..k] && b[..k + 1] == [b[0]] + b[1..][..k];
      k + 1
  }

  /** filepath.Rel from an absolute base. */
  function Rel(base: string, target: string): Option<string>
    requires Absolute(base)
  {
    if !Absolute(target) then None
    else
      var from, to := Parts(base), Parts(target);
      var k := Common(from, to);
      if from == to then Some(DOT)
      else Some(Join(seq(|from| - k, _ => UP) + to[k..]))
  }

  /** filepath.Join of two non-empty elements. */
  function JoinPaths(a: string, b: string): string {
    Clean(a + SLASH + b)
  }

  // ---------------------------------------------------------------- splitting and joining

  predicate Plain(part: string) {
    '/' !in part
  }

  /** A component that Clean keeps as it is. */
  predicate Normal(part: string) {
    part != [] && part != DOT && part != UP && Plain(part)
  }

  ghost predicate AllNormal(parts: seq<string>) {
    forall part <- parts :: Normal(part)
  }

  ghost predicate AllPlain(parts: seq<string>) {
    forall part <- parts :: Plain(part)
  }

  lemma TailIsNormal(parts: seq<string>, k: nat)
    requires AllNormal(parts) && k <= |parts|
    ensures AllNormal(parts[k..]) && AllPlain(parts[k..])
  {
    forall part <- parts[k..] ensures Normal(part) {
      assert part in parts;
    }
  }

  lemma {:induction false} SplitIsPlain(s: string)
    ensures AllPlain(Split(s))
  {
    if s != [] {
      SplitIsPlain(s[1..]);
      assert Plain(Split(s[1..])[0]);
    }
  }

  lemma {:induction false} SplitPlain(s: string)
    requires Plain(s)
    ensures Split(s) == [s]
  {
    if s != [] {
      SplitPlain(s[1..]);
      assert [s[0]] + s[1..] == s;
    }
  }

  lemma PrependConcat(c: char, a: seq<string>, b: seq<string>)
    requires a != []
    ensures Prepend(c, a + b) == Prepend(c, a) + b
  {
    assert (a + b)[1..] == a[1..] + b;
  }

  lemma {:induction false} SplitConcat(a: string, b: string)
    ensures Split(a + SLASH + b) == Split(a) + Split(b)
  {
    var whole := a + SLASH + b;
    if a == [] {
      assert whole[0] == '/' && whole[1..] == b;
    } else {
      SplitConcat(a[1..], b);
      assert whole[0] == a[0] && whole[1..] == a[1..] + SLASH + b;
      if a[0] == '/' {
        assert Split(whole) == [[]] + (Split(a[1..]) + Split(b)) == Split(a) + Split(b);
      } else {
        PrependConcat(a[0], Split(a[1..]), Split(b));
      }
    }
  }

  lemma {:induction false} SplitJoin(parts: seq<string>)
    requires parts != [] && AllPlain(parts)
    ensures Split(Join(parts)) == parts
  {
    SplitPlain(parts[0]);
    if |parts| > 1 {
      SplitJoin(parts[1..]);
      SplitConcat(parts[0], Join(parts[1..]));
      assert parts == [parts[0]] + parts[1..];
    }
  }

  // ---------------------------------------------------------------- cleaning

  lemma {:induction false} PushAllConcat(rooted: bool, kept: seq<string>, a: seq<string>, b: seq<string>)
    ensures PushAll(rooted, kept, a + b) == PushAll(rooted, PushAll(rooted, kept, a), b)
    decreases |a|
  {
    if a == [] {
      assert a + b == b;
    } else {
      PushAllConcat(rooted, Push(rooted, kept, a[0]), a[1..], b);
      assert (a + b)[1..] == a[1..] + b;
    }
  }

  lemma {:induction false} PushNormal(rooted: bool, kept: seq<string>, parts: seq<string>)
    requires AllNormal(parts)
    ensures PushAll(rooted, kept, parts) == kept + parts
    decreases |parts|
  {
    if parts != [] {
      assert Normal(parts[0]);
      PushNormal(rooted, kept + [parts[0]], parts[1..]);
      assert kept + [parts[0]] + parts[1..] == kept + parts;
    }
  }

  lemma {:induction false} PushedIsNormal(kept: seq<string>, parts: seq<string>)
    requires AllNormal(kept) && AllPlain(parts)
    ensures AllNormal(PushAll(true, kept, parts))
    decreases |parts|
  {
    if parts != [] {
      PushedIsNormal(Push(true, kept, parts[0]), parts[1..]);
    }
  }

  lemma {:induction false} PushedIsPlain(rooted: bool, kept: seq<string>, parts: seq<string>)
    requires AllPlain(kept) && AllPlain(parts) && [] !in kept
    ensures AllPlain(PushAll(rooted, kept, parts)) && [] !in PushAll(rooted, kept, parts)
    decreases |parts|
  {
    if parts != [] {
      PushedIsPlain(rooted, Push(rooted, kept, parts[0]), parts[1..]);
    }
  }

  /** Clean turns neither kind of path into the other. */
  lemma CleanKeepsKind(s: string)
    ensures Absolute(Clean(s)) <==> Absolute(s)
  {
    if !Absolute(s) && Parts(s) != [] {
      SplitIsPlain(s);
      PushedIsPlain(false, [], Split(s));
      var first := Parts(s)[0];
      assert Plain(first) && first != [] && first[0] in first;
      assert Join(Parts(s))[0] == first[0];
    }
  }

  lemma PartsAreNormal(s: string)
    requires Absolute(s)
    ensures AllNormal(Parts(s))
  {
    SplitIsPlain(s);
    PushedIsNormal([], Split(s));
  }

  /** An absolute path written out from normal components has just those components. */
  lemma PartsOfRendered(parts: seq<string>)
    requires AllNormal(parts)
    ensures Parts(SLASH + Join(parts)) == parts && Rooted(SLASH + Join(parts))
  {
    var s := SLASH + Join(parts);
    assert s[1..] == Join(parts);
    if parts == [] {
      assert Split(s) == [[]] + Split([]);
      assert PushAll(true, [], [[], []]) == PushAll(true, [], [[]]) == [];
    } else {
      SplitJoin(parts);
      assert Split(s) == [[]] + parts;
      assert ([[]] + parts)[1..] == parts;
      PushNormal(true, [], parts);
    }
  }

  /** Clean is idempotent on absolute paths and keeps the components. */
  lemma CleanIsClean(s: string)
    requires Absolute(s)
    ensures Rooted(Clean(s)) && Parts(Clean(s)) == Parts(s)
  {
    PartsAreNormal(s);
    PartsOfRendered(Parts(s));
  }

  /** Cleaned absolute paths are equal exactly when their components are. */
  lemma PartsDetermine(a: string, b: string)
    requires Rooted(a) && Rooted(b)
    ensures a == b <==> Parts(a) == Parts(b)
  {
  }

  /** Joining a normal relative path under a root appends its components. */
  lemma PartsOfJoined(root: string, parts: seq<string>)
    requires Rooted(root) && parts != [] && AllNormal(parts)
    ensures var joined := JoinPaths(root, Join(parts));
            Rooted(joined) && Parts(joined) == Parts(root) + parts
  {
    var s := root + SLASH + Join(parts);
    SplitConcat(root, Join(parts));
    SplitJoin(parts);
    PushAllConcat(true, [], Split(root), parts);
    PushNormal(true, Parts(root), parts);
    CleanIsClean(s);
  }

  // ---------------------------------------------------------------- what cleaning means, component by component

  /** Appending to an absolute path goes on from the components it has. */
  lemma PartsGoOn(a: string, b: string)
    requires Absolute(a)
    ensures Absolute(a + SLASH + b) && Parts(a + SLASH + b) == PushAll(true, Parts(a), Split(b))
  {
    SplitConcat(a, b);
    PushAllConcat(true, [], Split(a), Split(b));
  }

  /** The same with one component in between. */
  lemma PartsThrough(a: string, part: string, b: string)
    requires Absolute(a) && Plain(part)
    ensures Absolute(a + SLASH + part) && Parts(a + SLASH + part) == Push(true, Parts(a), part)
    ensures Parts(a + SLASH + part + SLASH + b) == PushAll(true, Push(true, Parts(a), part), Split(b))
  {
    PartsGoOn(a, part);
    SplitPlain(part);
    assert PushAll(true, Parts(a), [part]) == PushAll(true, Push(true, Parts(a), part), []);
    PartsGoOn(a + SLASH + part, b);
  }

  /** An ordinary component is kept, in its place. */
  lemma NormalIsKept(a: string, part: string)
    requires Absolute(a) && Normal(part)
    ensures Parts(a + SLASH + part) == Parts(a) + [part]
  {
    PartsThrough(a, part, []);
  }

  /** "." and an empty component say nothing. */
  lemma DotIsDropped(a: string, part: string, b: string)
    requires Absolute(a) && (part == DOT || part == [])
    ensures Parts(a + SLASH + part + SLASH + b) == Parts(a + SLASH + b) && Parts(a + SLASH + part) == Parts(a)
  {
    PartsThrough(a, part, b);
    PartsGoOn(a, b);
  }

  /** ".." undoes the component before it. */
  lemma UpUndoes(a: string, part: string, b: string)
    requires Absolute(a) && Normal(part)
    ensures Parts(a + SLASH + part + SLASH + UP + SLASH + b) == Parts(a + SLASH + b)
    ensures Parts(a + SLASH + part + SLASH + UP) == Parts(a)
  {
    PartsThrough(a, part, []);
    PartsThrough(a + SLASH + part, UP, b);
    PartsGoOn(a, b);
  }

  /** ".." at the top of the tree stays there. */
  lemma UpStopsAtTop(a: string, b: string)
    requires Absolute(a) && Parts(a) == []
    ensures Parts(a + SLASH + UP + SLASH + b) == Parts(a + SLASH + b) && Parts(a + SLASH + UP) == []
  {
    PartsThrough(a, UP, b);
    PartsGoOn(a, b);
  }

  lemma {:induction false} PopUps(kept: seq<string>, n: nat)
    requires AllNormal(kept) && n <= |kept|
    ensures PushAll(true, kept, seq(n, _ => UP)) == kept[..|kept| - n]
    decreases n
  {
    if n > 0 {
      var ups := seq(n, _ => UP);
      assert Normal(kept[|kept| - 1]);
      var shorter := kept[..|kept| - 1];
      assert AllNormal(shorter) by { assert forall part <- shorter :: part in kept; }
      assert ups[1..] == seq(n - 1, _ => UP);
      PopUps(shorter, n - 1);
    }
  }

  /** Up from the one path to what both share, and down to the other. */
  lemma UpThenDown(from: seq<string>, to: seq<string>, k: nat)
    requires AllNormal(from) && AllNormal(to) && k <= |from| && k <= |to| && from[..k] == to[..k]
    ensures PushAll(true, from, seq(|from| - k, _ => UP) + to[k..]) == to
  {
    var ups := seq(|from| - k, _ => UP);
    TailIsNormal(to, k);
    PushAllConcat(true, from, ups, to[k..]);
    PopUps(from, |from| - k);
    PushNormal(true, from[..k], to[k..]);
    assert from[..k] + to[k..] == to;
  }

  lemma SplitRelative(n: nat, rest: seq<string>)
    requires AllPlain(rest) && (n > 0 || rest != [])
    ensures Split(Join(seq(n, _ => UP) + rest)) == seq(n, _ => UP) + rest
  {
    var parts := seq(n, _ => UP) + rest;
    forall part <- parts ensures Plain(part) { assert part == UP || part in rest; }
    assert |parts| == n + |rest|;
    SplitJoin(parts);
  }

  lemma PartsOfRelative(base: string, target: string)
    requires Absolute(base) && Absolute(target)
    ensures Rel(base, target).Some? && Parts(base + SLASH + Rel(base, target).value) == Parts(target)
  {
    var from, to := Parts(base), Parts(target);
    if from == to {
      DotIsDropped(base, DOT, []);
    } else {
      PartsAreNormal(base);
      PartsAreNormal(target);
      var k := Common(from, to);
      TailIsNormal(to, k);
      assert from[..|from|] == from && to[..|to|] == to;
      SplitRelative(|from| - k, to[k..]);
      PartsGoOn(base, Rel(base, target).value);
      UpThenDown(from, to, k);
    }
  }

  /** What filepath.Rel promises: joined to the base, the relative path is the target again. */
  lemma RelRoundTrip(base: string, target: string)
    requires Absolute(base) && Absolute(target)
    ensures Rel(base, target).Some? && JoinPaths(base, Rel(base, target).value) == Clean(target)
  {
    PartsOfRelative(base, target);
    var joined := base + SLASH + Rel(base, target).value;
    CleanIsClean(joined);
    CleanIsClean(target);
    PartsDetermine(Clean(joined), Clean(target));
  }

  /** A suffix without a slash lengthens the last component of a root, or becomes the only one under "/". */
  lemma PartsOfSuffixed(root: string, suffix: string)
    requires Rooted(root) && Plain(suffix) && |suffix| > 2
    ensures Rooted(root + suffix)
    ensures var parts := Parts(root);
            Parts(root + suffix) == if parts == [] then [suffix] else parts[..|parts| - 1] + [parts[|parts| - 1] + suffix]
  {
    var parts := Parts(root);
    PartsAreNormal(root);
    var longer := if parts == [] then [suffix] else parts[..|parts| - 1] + [parts[|parts| - 1] + suffix];
    assert AllNormal(longer) by {
      assert parts != [] ==> Normal(parts[|parts| - 1]);
    }
    assert root + suffix == SLASH + Join(longer) by {
      if parts != [] { JoinTail(parts, suffix); }
      assert root == SLASH + Join(parts);
    }
    PartsOfRendered(longer);
  }

  lemma {:induction false} JoinTail(parts: seq<string>, suffix: string)
    requires parts != []
    ensures Join(parts[..|parts| - 1] + [parts[|parts| - 1] + suffix]) == Join(parts) + suffix
  {
    var longer := parts[..|parts| - 1] + [parts[|parts| - 1] + suffix];
    if |parts| > 1 {
      JoinTail(parts[1..], suffix);
      assert longer[1..] == parts[1..][..|parts| - 2] + [parts[|parts| - 1] + suffix];
    }
  }
}

/**
 The roots and path rewriting of forks and clones: internal/checkpoint/fork.go and the member roots of
 internal/checkpoint/clone.go.
 */
module ForkPaths {
  import opened Wrappers
  import opened FilePath
  import opened Numerals

  /** The path lies at or under the root. */
  ghost predicate Inside(root: string, path: string) {
    Absolute(path) && Parts(root) <= Parts(path)
  }

  /** Neither root lies at or under the other. */
  ghost predicate Apart(a: string, b: string) {
    !(Parts(a) <= Parts(b)) && !(Parts(b) <= Parts(a))
  }

  // ---------------------------------------------------------------- pathContains

  predicate Escapes(relative: string) {
    relative == UP || UP + SLASH <= relative
  }

  predicate PathContains(parent: string, child: string)
    requires Absolute(parent)
  {
    var relative := Rel(parent, child);
    relative.Some? && !Escapes(relative.value)
  }

  /** A joined path escapes exactly when its first component is "..". */
  lemma EscapesIff(parts: seq<string>)
    requires parts != [] && AllPlain(parts)
    ensures Escapes(Join(parts)) <==> parts[0] == UP
  {
    var joined, first := Join(parts), parts[0];
    assert Plain(first);
    if |parts| == 1 {
      SlashBreaksPlain(first);
    } else {
      assert joined[|first|] == '/' && joined[..|first|] == first;
      if first == UP {
        assert joined[..3] == UP + SLASH;
      }
      assert '/' in joined && '/' !in UP;
      if UP + SLASH <= joined {
        FirstComponent(joined, first);
      }
    }
  }

  lemma SlashBreaksPlain(part: string)
    requires Plain(part)
    ensures !(UP + SLASH <= part)
  {
    assert (UP + SLASH)[2] == '/';
    assert |part| > 2 ==> part[2] in part;
  }

  lemma FirstComponent(joined: string, first: string)
    requires Plain(first) && |first| < |joined| && joined[|first|] == '/' && joined[..|first|] == first
    requires UP + SLASH <= joined
    ensures first == UP
  {
    assert joined[0] == '.' && joined[1] == '.' && joined[2] == '/';
    forall k | 0 <= k < |first| ensures joined[k] != '/' {
      assert joined[k] == first[k] && first[k] in first;
    }
  }

  /** The relative path of anything under the base is what follows the base's components. */
  lemma RelInside(base: string, target: string)
    requires Absolute(base) && Inside(base, target) && Parts(base) != Parts(target)
    ensures var rest := Parts(target)[|Parts(base)|..];
            rest != [] && AllNormal(rest) && Rel(base, target) == Some(Join(rest)) && !Escapes(Join(rest))
  {
    var from, to := Parts(base), Parts(target);
    PartsAreNormal(target);
    assert Common(from, to) == |from|;
    var rest := to[|from|..];
    TailIsNormal(to, |from|);
    assert seq(0, _ => UP) + rest == rest;
    EscapesIff(rest);
    assert Normal(rest[0]);
  }

  lemma RelOutside(base: string, target: string)
    requires Absolute(base) && Absolute(target) && !Inside(base, target)
    ensures Rel(base, target).Some? && Escapes(Rel(base, target).value)
  {
    var from, to := Parts(base), Parts(target);
    PartsAreNormal(target);
    var k := Common(from, to);
    CommonFallsShort(from, to);
    TailIsNormal(to, k);
    UpsFirst(|from| - k, to[k..]);
  }

  lemma CommonFallsShort(from: seq<string>, to: seq<string>)
    requires !(from <= to)
    ensures Common(from, to) < |from|
  {
  }

  lemma UpsFirst(count: nat, rest: seq<string>)
    requires count > 0 && AllPlain(rest)
    ensures Escapes(Join(seq(count, _ => UP) + rest))
  {
    var parts := seq(count, _ => UP) + rest;
    forall part <- parts ensures Plain(part) {
      assert part == UP || part in rest;
    }
    EscapesIff(parts);
  }

  /** pathContains is component-prefix: the string test on the relative path loses nothing and admits nothing more. */
  lemma ContainsIff(parent: string, child: string)
    requires Absolute(parent)
    ensures PathContains(parent, child) <==> Inside(parent, child)
  {
    if Inside(parent, child) {
      if Parts(parent) != Parts(child) { RelInside(parent, child); }
    } else if Absolute(child) {
      RelOutside(parent, child);
    }
  }

  // ---------------------------------------------------------------- rebasePath

  function RebasePath(sourceRoot: string, forkRoot: string, path: string): Option<string>
    requires Absolute(sourceRoot)
  {
    var clean := Clean(path);
    if clean == sourceRoot then Some(forkRoot)
    else
      var relative := Rel(sourceRoot, clean);
      if relative.None? || Escapes(relative.value) then None
      else Some(JoinPaths(forkRoot, relative.value))
  }

  /**
   Rebasing succeeds exactly for the paths inside the source root, and moves a path by swapping the root's
   components for the other root's.
   */
  lemma RebaseIff(sourceRoot: string, forkRoot: string, path: string)
    requires Rooted(sourceRoot) && Rooted(forkRoot)
    ensures RebasePath(sourceRoot, forkRoot, path).Some? <==> Inside(sourceRoot, path)
    ensures Inside(sourceRoot, path) ==>
      var moved := RebasePath(sourceRoot, forkRoot, path).value;
      Rooted(moved) && Parts(moved) == Parts(forkRoot) + Parts(path)[|Parts(sourceRoot)|..]
  {
    CleanKeepsKind(path);
    if Absolute(path) {
      var clean, from, to := Clean(path), Parts(sourceRoot), Parts(path);
      CleanIsClean(path);
      PartsDetermine(clean, sourceRoot);
      if clean == sourceRoot {
        assert Parts(forkRoot) + to[|from|..] == Parts(forkRoot);
      } else if from <= to {
        RelInside(sourceRoot, clean);
        PartsOfJoined(forkRoot, to[|from|..]);
      } else {
        RelOutside(sourceRoot, clean);
      }
    }
  }

  /** Rebasing from source to fork and back is the identity on cleaned paths inside the source. */
  lemma RebaseRoundTrip(sourceRoot: string, forkRoot: string, path: string)
    requires Rooted(sourceRoot) && Rooted(forkRoot) && Inside(sourceRoot, path)
    ensures var there := RebasePath(sourceRoot, forkRoot, path);
            there.Some? && RebasePath(forkRoot, sourceRoot, there.value) == Some(Clean(path))
  {
    RebaseIff(sourceRoot, forkRoot, path);
    var moved := RebasePath(sourceRoot, forkRoot, path).value;
    RebaseIff(forkRoot, sourceRoot, moved);
    var back := RebasePath(forkRoot, sourceRoot, moved).value;
    assert Parts(back) == Parts(path) by {
      Swapped(Parts(sourceRoot), Parts(forkRoot), Parts(path));
    }
    CleanIsClean(path);
    PartsDetermine(back, Clean(path));
  }

  lemma Swapped(from: seq<string>, fork: seq<string>, to: seq<string>)
    requires from <= to
    ensures from + (fork + to[|from|..])[|fork|..] == to
  {
    assert (fork + to[|from|..])[|fork|..] == to[|from|..];
  }

  /** A path moved to a root apart from the source is no longer inside the source. */
  lemma MovedIsOutside(sourceRoot: string, forkRoot: string, moved: string, rest: seq<string>)
    requires Apart(sourceRoot, forkRoot) && Parts(moved) == Parts(forkRoot) + rest
    ensures !Inside(sourceRoot, moved)
  {
    var from, fork := Parts(sourceRoot), Parts(forkRoot);
    if from <= fork + rest {
      Prefixes(from, fork, fork + rest);
    }
  }

  lemma Prefixes(a: seq<string>, b: seq<string>, whole: seq<string>)
    requires a <= whole && b <= whole
    ensures a <= b || b <= a
  {
    assert if |a| <= |b| then a == b[..|a|] else b == a[..|b|];
  }

  // ---------------------------------------------------------------- rebaseCommand

  /** What becomes of one command element. */
  ghost function Rewritten(sourceRoot: string, newRoot: string, element: string): Option<string>
    requires Absolute(sourceRoot)
  {
    if Inside(sourceRoot, element) then RebasePath(sourceRoot, newRoot, Clean(element)) else Some(element)
  }

  lemma InsideWhenClean(root: string, element: string)
    requires Rooted(root) && Absolute(element)
    ensures Inside(root, element) <==> Clean(element) == root || PathContains(root, Clean(element))
  {
    CleanIsClean(element);
    ContainsIff(root, Clean(element));
  }

  /**
   rebaseCommand: elements that are absolute paths inside the source root are rebased, all others are kept as
   they are.
   */
  method RebaseCommand(sourceRoot: string, newRoot: string, command: seq<string>) returns (result: Option<seq<string>>)
    requires Rooted(sourceRoot)
    ensures result.None? <==> exists i | 0 <= i < |command| :: Rewritten(sourceRoot, newRoot, command[i]).None?
    ensures result.Some? ==> |result.value| == |command|
    ensures result.Some? ==> forall i | 0 <= i < |command| ::
              Rewritten(sourceRoot, newRoot, command[i]) == Some(result.value[i])
  {
    ghost var wanted := seq(|command|, i requires 0 <= i < |command| => Rewritten(sourceRoot, newRoot, command[i]));
    var rebased := new string[|command|];
    for index := 0 to |command|
      invariant forall i | 0 <= i < index :: wanted[i] == Some(rebased[i])
    {
      var element := command[index];
      assert wanted[index] == Rewritten(sourceRoot, newRoot, element);
      if !Absolute(element) {
        rebased[index] := element;
        continue;
      }
      InsideWhenClean(sourceRoot, element);
      var clean := Clean(element);
      if clean != sourceRoot && !PathContains(sourceRoot, clean) {
        rebased[index] := element;
        continue;
      }
      var moved := RebasePath(sourceRoot, newRoot, clean);
      if moved.None? {
        return None;
      }
      rebased[index] := moved.value;
    }
    assert forall i | 0 <= i < |command| :: wanted[i] == Rewritten(sourceRoot, newRoot, command[i]);
    return Some(rebased[..]);
  }

  /** What RebaseCommand yields: it never fails, every inside element keeps its place under the new root, and none stays behind. */
  lemma CommandIsMoved(sourceRoot: string, newRoot: string, element: string)
    requires Rooted(sourceRoot) && Rooted(newRoot) && Inside(sourceRoot, element)
    ensures var moved := RebasePath(sourceRoot, newRoot, Clean(element));
            && moved.Some? && Rooted(moved.value)
            && Parts(moved.value) == Parts(newRoot) + Parts(element)[|Parts(sourceRoot)|..]
            && (Apart(sourceRoot, newRoot) ==> !Inside(sourceRoot, moved.value))
  {
    CleanIsClean(element);
    RebaseIff(sourceRoot, newRoot, Clean(element));
    if Apart(sourceRoot, newRoot) {
      var moved := RebasePath(sourceRoot, newRoot, Clean(element)).value;
      MovedIsOutside(sourceRoot, newRoot, moved, Parts(element)[|Parts(sourceRoot)|..]);
    }
  }

  // ---------------------------------------------------------------- forkRootPath

  const FORK_TAG: string := "-fork-"
  const CLONE_TAG: string := "-clone-"
  const DASH: string := "-"

  /** filepath.Abs from the given working directory. */
  function Abs(directory: string, path: string): string {
    if Absolute(path) then Clean(path) else JoinPaths(directory, path)
  }

  function ForkRootPath(directory: string, sourceRoot: string, requested: string, session: string): Option<string>
    requires Absolute(directory) && Rooted(sourceRoot)
  {
    var candidate := if requested == [] then sourceRoot + FORK_TAG + session else requested;
    AbsIsRooted(directory, candidate);
    var absolute := Clean(Abs(directory, candidate));
    if absolute == SLASH then None
    else if absolute == sourceRoot then None
    else if PathContains(sourceRoot, absolute) || PathContains(absolute, sourceRoot) then None
    else Some(absolute)
  }

  lemma AbsIsRooted(directory: string, path: string)
    requires Absolute(directory)
    ensures Rooted(Abs(directory, path)) && Clean(Abs(directory, path)) == Abs(directory, path)
  {
    CleanIsClean(if Absolute(path) then path else directory + SLASH + path);
  }

  /** An absolute path stands for itself, a relative one for what it names from the directory. */
  lemma AbsMeans(directory: string, path: string)
    requires Absolute(directory)
    ensures Parts(Abs(directory, path)) == if Absolute(path) then Parts(path) else PushAll(true, Parts(directory), Split(path))
  {
    AbsIsRooted(directory, path);
    if Absolute(path) {
      CleanIsClean(path);
    } else {
      PartsGoOn(directory, path);
      CleanIsClean(directory + SLASH + path);
    }
  }

  /** forkRootPath admits a requested root exactly when it is apart from the source root. */
  lemma ForkRootIff(directory: string, sourceRoot: string, requested: string, session: string)
    requires Absolute(directory) && Rooted(sourceRoot) && requested != []
    ensures var root := ForkRootPath(directory, sourceRoot, requested, session);
            && (root.Some? <==> Apart(sourceRoot, Abs(directory, requested)))
            && (root.Some? ==> Rooted(root.value) && root.value == Abs(directory, requested) && root.value != SLASH)
  {
    var absolute := Abs(directory, requested);
    AbsIsRooted(directory, requested);
    ContainsIff(sourceRoot, absolute);
    ContainsIff(absolute, sourceRoot);
    PartsOfRendered([]);
  }

  /** Lengthening the last component of a root takes it apart from that root, unless the root is "/". */
  lemma SuffixedIsApart(root: string, suffix: string)
    requires Rooted(root) && Plain(suffix) && |suffix| > 2
    ensures Rooted(root + suffix)
    ensures Apart(root, root + suffix) <==> root != SLASH
  {
    PartsOfSuffixed(root, suffix);
    PartsOfRendered([]);
    PartsDetermine(root, SLASH);
    var parts, longer := Parts(root), Parts(root + suffix);
    if parts != [] {
      var n := |parts| - 1;
      assert |longer| == |parts| && |longer[n]| > |parts[n]|;
    }
  }

  /** The root derived when none is requested is admitted exactly when the source root is not "/". */
  lemma DerivedForkRootIff(directory: string, sourceRoot: string, session: string)
    requires Absolute(directory) && Rooted(sourceRoot) && Plain(session)
    ensures var root := ForkRootPath(directory, sourceRoot, [], session);
            && (root.Some? <==> sourceRoot != SLASH)
            && (root.Some? ==> root.value == sourceRoot + FORK_TAG + session && Apart(sourceRoot, root.value))
  {
    var derived := sourceRoot + FORK_TAG + session;
    assert derived == sourceRoot + (FORK_TAG + session);
    SuffixedIsApart(sourceRoot, FORK_TAG + session);
    ForkRootIff(directory, sourceRoot, derived, session);
  }

  // ---------------------------------------------------------------- clone member roots

  /** The root of clone index of a set, from cloneSpecification. */
  function CloneRoot(sourceRoot: string, setId: string, index: nat): string {
    sourceRoot + CLONE_TAG + setId + DASH + Itoa(index)
  }

  lemma CloneSuffix(sourceRoot: string, setId: string, index: nat)
    requires Plain(setId)
    ensures var suffix := CLONE_TAG + setId + DASH + Itoa(index);
            CloneRoot(sourceRoot, setId, index) == sourceRoot + suffix && Plain(suffix) && |suffix| > 2
  {
  }

  lemma ItoaIsInjective(i: nat, j: nat)
    requires Itoa(i) == Itoa(j)
    ensures i == j
  {
    ValueItoa(i);
    ValueItoa(j);
  }

  /** A clone's root is apart from the source root exactly when that is not "/", which the path code itself does not check. */
  lemma CloneRootApartIff(sourceRoot: string, setId: string, index: nat)
    requires Rooted(sourceRoot) && Plain(setId)
    ensures Rooted(CloneRoot(sourceRoot, setId, index))
    ensures Apart(sourceRoot, CloneRoot(sourceRoot, setId, index)) <==> sourceRoot != SLASH
  {
    CloneSuffix(sourceRoot, setId, index);
    SuffixedIsApart(sourceRoot, CLONE_TAG + setId + DASH + Itoa(index));
  }

  /** The roots of a set's members are pairwise distinct and apart. */
  lemma CloneRootsApart(sourceRoot: string, setId: string, i: nat, j: nat)
    requires Rooted(sourceRoot) && Plain(setId) && i != j
    ensures CloneRoot(sourceRoot, setId, i) != CloneRoot(sourceRoot, setId, j)
    ensures Apart(CloneRoot(sourceRoot, setId, i), CloneRoot(sourceRoot, setId, j))
  {
    var a, b := CloneRoot(sourceRoot, setId, i), CloneRoot(sourceRoot, setId, j);
    var base := sourceRoot + CLONE_TAG + setId + DASH;
    if a == b {
      assert a[|base|..] == Itoa(i) && b[|base|..] == Itoa(j);
      ItoaIsInjective(i, j);
    }
    CloneSuffix(sourceRoot, setId, i);
    CloneSuffix(sourceRoot, setId, j);
    PartsOfSuffixed(sourceRoot, CLONE_TAG + setId + DASH + Itoa(i));
    PartsOfSuffixed(sourceRoot, CLONE_TAG + setId + DASH + Itoa(j));
    PartsDetermine(a, b);
    SameLengthApart(Parts(a), Parts(b));
  }

  lemma SameLengthApart(a: seq<string>, b: seq<string>)
    requires |a| == |b| && a != b
    ensures !(a <= b) && !(b <= a)
  {
  }
}
