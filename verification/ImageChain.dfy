/** Decimal numerals as fmt's %d writes them and strconv.Atoi reads them. */
module Numerals {
  import opened Wrappers

  const MAX_INT: int := 0x7fff_ffff_ffff_ffff

  predicate IsDigit(c: char) {
    '0' <= c <= '9'
  }

  function Itoa(n: nat): (s: string)
    ensures s != [] && forall c <- s :: IsDigit(c)
  {
    var digit := ['0' + (n % 10) as char];
    if n < 10 then digit else Itoa(n / 10) + digit
  }

  /** The value of a string of digits, whatever its length and leading zeros. */
  function Value(s: string): nat
    requires forall c <- s :: IsDigit(c)
  {
    if s == [] then 0 else assert IsDigit(s[|s| - 1]); Value(s[..|s| - 1]) * 10 + (s[|s| - 1] as int - '0' as int)
  }

  /** strconv.Atoi on a 64-bit machine: an optional sign, then digits, within range. */
  function Atoi(s: string): Option<int> {
    var signed := s != [] && (s[0] == '-' || s[0] == '+');
    var digits := if signed then s[1..] else s;
    if digits == [] || exists c <- digits :: !IsDigit(c) then None
    else
      var n := if signed && s[0] == '-' then -(Value(digits) as int) else Value(digits);
      if -MAX_INT - 1 <= n <= MAX_INT then Some(n) else None
  }

  lemma {:induction false} ValueItoa(n: nat)
    ensures Value(Itoa(n)) == n
  {
    if n >= 10 {
      ValueItoa(n / 10);
      assert Itoa(n)[..|Itoa(n)| - 1] == Itoa(n / 10);
    }
  }

  lemma AtoiItoa(n: nat)
    requires n <= MAX_INT
    ensures Atoi(Itoa(n)) == Some(n)
  {
    ValueItoa(n);
    assert Itoa(n)[0] in Itoa(n);
  }

  function Zeros(n: nat): (s: string)
    ensures |s| == n && forall c <- s :: IsDigit(c)
  {
    seq(n, _ => '0')
  }

  /** Every string of digits is the numeral of its value behind some zeros. */
  lemma {:induction false} ValueForm(d: string)
    requires forall c <- d :: IsDigit(c)
    ensures Value(d) == 0 ==> d == Zeros(|d|)
    ensures Value(d) > 0 ==> |Itoa(Value(d))| <= |d| && d == Zeros(|d| - |Itoa(Value(d))|) + Itoa(Value(d))
  {
    if d != [] {
      var (init, last) := (d[..|d| - 1], d[|d| - 1]);
      assert last in d && d == init + [last];
      ValueForm(init);
      LastDigit(Value(init), last);
    }
  }

  /** The numeral of ten times n and a digit is the numeral of n and that digit. */
  lemma LastDigit(n: nat, c: char)
    requires IsDigit(c)
    ensures var digit := c as int - '0' as int;
            Itoa(n * 10 + digit) == if n == 0 then [c] else Itoa(n) + [c]
  {
    var digit := c as int - '0' as int;
    assert (n * 10 + digit) % 10 == digit && (n * 10 + digit) / 10 == n;
    assert '0' + digit as char == c;
  }

  lemma {:induction false} ValueBehindZeros(z: nat, d: string)
    requires forall c <- d :: IsDigit(c)
    ensures Value(Zeros(z) + d) == Value(d)
    decreases z + |d|
  {
    if d != [] {
      assert (Zeros(z) + d)[..z + |d| - 1] == Zeros(z) + d[..|d| - 1];
      ValueBehindZeros(z, d[..|d| - 1]);
    } else if z > 0 {
      assert Zeros(z) + d == Zeros(z) && Zeros(z)[..z - 1] == Zeros(z - 1) + [];
      ValueBehindZeros(z - 1, []);
    }
  }

  /** A decimal numeral for n as Atoi takes it: an optional plus, any zeros, then n. */
  predicate Numeral(s: string, n: nat, z: nat) {
    s == Zeros(z) + Itoa(n) || s == ['+'] + (Zeros(z) + Itoa(n))
  }

  lemma AtoiDigits(d: string)
    requires d != [] && (forall c <- d :: IsDigit(c)) && Value(d) <= MAX_INT
    ensures Atoi(d) == Some(Value(d)) && Atoi(['+'] + d) == Some(Value(d))
  {
    assert d[0] in d;
    var signed := ['+'] + d;
    assert signed[0] == '+' && signed[1..] == d;
  }

  lemma NumeralParses(s: string, n: nat, z: nat)
    requires Numeral(s, n, z) && n <= MAX_INT
    ensures Atoi(s) == Some(n)
  {
    var digits := Zeros(z) + Itoa(n);
    assert forall c <- digits :: c in Zeros(z) || c in Itoa(n);
    ValueBehindZeros(z, Itoa(n));
    ValueItoa(n);
    AtoiDigits(digits);
  }

  /** Which strings strconv.Atoi reads as a positive number, and which number. */
  lemma AtoiPositiveIff(s: string, n: nat)
    requires n >= 1
    ensures Atoi(s) == Some(n) <==> n <= MAX_INT && exists z: nat :: Numeral(s, n, z)
  {
    if Atoi(s) == Some(n) {
      var signed := s != [] && (s[0] == '-' || s[0] == '+');
      var digits := if signed then s[1..] else s;
      ValueForm(digits);
      assert signed ==> s == [s[0]] + digits;
      assert Numeral(s, n, |digits| - |Itoa(n)|);
    }
    if n <= MAX_INT && exists z: nat :: Numeral(s, n, z) {
      var z: nat :| Numeral(s, n, z);
      NumeralParses(s, n, z);
    }
  }
}

/**
 The image chain of a checkpoint: processImageAssets and processChain of internal/checkpoint/restore.go, the
 consumer of what a live session's Finalize produces.
 */
module ImageChain {
  import opened Wrappers
  import opened Numerals

  type Id = nat

  datatype ChunkRef = ChunkRef(keyVersion: nat, address: nat)

  datatype Asset = Asset(name: string, chunks: seq<ChunkRef>)

  datatype Manifest = Manifest(id: Id, workload: nat, parent: Option<Id>, assets: seq<Asset>)

  const FINAL: string := "process-state"
  const PASS_PREFIX: string := "process-state-precopy-"
  const MAX_CHAIN: nat := 256

  /** Accepted carries the final image set and the passes in pass order. */
  datatype Images = Accepted(final: Asset, passes: seq<Asset>) | NoFinal | Malformed | Duplicate | Broken(missing: nat)

  /** What an asset's name makes it: something else, a pre-copy pass with its number, or a malformed pass. */
  datatype Tag = Other | Pass(n: int) | Bad

  function TagOf(name: string): Tag {
    if name == FINAL || !(PASS_PREFIX <= name) then Other
    else
      var n := Atoi(name[|PASS_PREFIX|..]);
      if n.Some? && n.value >= 1 then Pass(n.value) else Bad
  }

  function PassName(n: nat): string {
    PASS_PREFIX + Itoa(n)
  }

  lemma PassNameParses(n: nat)
    requires 1 <= n <= MAX_INT
    ensures TagOf(PassName(n)) == Pass(n)
  {
    AtoiItoa(n);
    assert PassName(n)[|PASS_PREFIX|..] == Itoa(n);
    assert |PassName(n)| > |FINAL|;
  }

  /** The name is the pass prefix and a numeral for n. */
  predicate NamesPass(name: string, n: nat, z: nat) {
    PASS_PREFIX <= name && Numeral(name[|PASS_PREFIX|..], n, z)
  }

  /** Which asset names are pass n, which are malformed, and that all others are no passes. */
  lemma TagIff(name: string)
    ensures forall n: nat | 1 <= n <= MAX_INT :: TagOf(name) == Pass(n) <==> exists z: nat :: NamesPass(name, n, z)
    ensures TagOf(name) == Bad <==> PASS_PREFIX <= name && forall n: nat, z: nat | 1 <= n <= MAX_INT :: !NamesPass(name, n, z)
    ensures TagOf(name) == Other <==> !(PASS_PREFIX <= name)
  {
    assert |PASS_PREFIX| > |FINAL|;
    if PASS_PREFIX <= name {
      var rest := name[|PASS_PREFIX|..];
      forall n: nat | 1 <= n <= MAX_INT ensures TagOf(name) == Pass(n) <==> exists z: nat :: NamesPass(name, n, z) {
        AtoiPositiveIff(rest, n);
        assert forall z: nat :: NamesPass(name, n, z) <==> Numeral(rest, n, z);
      }
      var n := Atoi(rest);
      if n.Some? && n.value >= 1 {
        AtoiPositiveIff(rest, n.value);
        var z: nat :| Numeral(rest, n.value, z);
        assert NamesPass(name, n.value, z);
      } else {
        forall k: nat, z: nat | 1 <= k <= MAX_INT ensures !NamesPass(name, k, z) {
          AtoiPositiveIff(rest, k);
        }
      }
    }
  }

  // ---------------------------------------------------------------- processImageAssets

  function Tags(assets: seq<Asset>): (tags: seq<Tag>)
    ensures |tags| == |assets| && forall i | 0 <= i < |assets| :: tags[i] == TagOf(assets[i].name)
  {
    seq(|assets|, i requires 0 <= i < |assets| => TagOf(assets[i].name))
  }

  /** Asset i is pass k. */
  predicate PassAt(tags: seq<Tag>, i: int, k: int) {
    0 <= i < |tags| && tags[i] == Pass(k)
  }

  ghost predicate HasPass(tags: seq<Tag>, k: int) {
    exists i :: PassAt(tags, i, k)
  }

  ghost predicate HasFinal(assets: seq<Asset>) {
    exists a <- assets :: a.name == FINAL
  }

  /** No malformed pass, no two assets for one pass, and the pass numbers are exactly 1..n. */
  ghost predicate Contiguous(tags: seq<Tag>, n: nat) {
    && Bad !in tags
    && (forall i, j, k :: PassAt(tags, i, k) && PassAt(tags, j, k) ==> i == j)
    && (forall k :: HasPass(tags, k) <==> 1 <= k <= n)
  }

  /** The passes in order are the assets the numbers name. */
  ghost predicate InPassOrder(assets: seq<Asset>, tags: seq<Tag>, passes: seq<Asset>)
    requires |tags| == |assets|
  {
    forall k | 0 <= k < |passes| :: IsPassNo(assets, tags, passes[k], k + 1)
  }

  ghost predicate IsPassNo(assets: seq<Asset>, tags: seq<Tag>, a: Asset, n: int)
    requires |tags| == |assets|
  {
    exists i :: PassAt(tags, i, n) && assets[i] == a
  }

  /** The first asset of that name. */
  ghost predicate IsFirst(assets: seq<Asset>, name: string, a: Asset) {
    exists i | 0 <= i < |assets| :: assets[i] == a && a.name == name && forall j | 0 <= j < i :: assets[j].name != name
  }

  method AssetByName(assets: seq<Asset>, name: string) returns (found: Option<Asset>)
    ensures found.None? <==> forall a <- assets :: a.name != name
    ensures found.Some? ==> IsFirst(assets, name, found.value)
  {
    for i := 0 to |assets|
      invariant forall j | 0 <= j < i :: assets[j].name != name
    {
      if assets[i].name == name { return Some(assets[i]); }
    }
    return None;
  }

  /** byIndex after n assets, with the position each number came from. */
  ghost predicate Indexed(assets: seq<Asset>, tags: seq<Tag>, n: int, byIndex: map<int, Asset>, pos: map<int, int>) {
    && 0 <= n <= |assets| == |tags| && pos.Keys == byIndex.Keys
    && (forall k <- pos :: pos[k] < n && PassAt(tags, pos[k], k) && byIndex[k] == assets[pos[k]])
    && (forall i | 0 <= i < n :: tags[i] != Bad)
    && (forall i, k :: PassAt(tags, i, k) && i < n ==> k in pos && pos[k] == i)
  }

  /** The first loop: the pass assets by number, or what is wrong with one of them. */
  method IndexPasses(assets: seq<Asset>, tags: seq<Tag>) returns (fault: Option<Images>, byIndex: map<int, Asset>, ghost pos: map<int, int>)
    requires |tags| == |assets|
    ensures fault.None? ==> Indexed(assets, tags, |assets|, byIndex, pos)
    ensures fault.Some? ==> (fault.value.Malformed? || fault.value.Duplicate?) && forall n: nat :: !Contiguous(tags, n)
    ensures fault.Some? && fault.value.Malformed? ==> Bad in tags
    ensures fault.Some? && fault.value.Duplicate? ==> exists i, j, k :: i != j && PassAt(tags, i, k) && PassAt(tags, j, k)
  {
    fault, byIndex, pos := None, map[], map[];
    for i := 0 to |assets|
      invariant Indexed(assets, tags, i, byIndex, pos)
    {
      match tags[i]
      case Other =>
      case Bad =>
        return Some(Malformed), byIndex, pos;
      case Pass(k) =>
        assert PassAt(tags, i, k);
        if k in byIndex {
          assert PassAt(tags, pos[k], k) && pos[k] != i;
          return Some(Duplicate), byIndex, pos;
        }
        byIndex, pos := byIndex[k := assets[i]], pos[k := i];
    }
  }

  /** Numbers 1..n inside a set of n numbers are all of it. */
  lemma {:induction false} KeysAreRange(keys: set<int>, n: nat)
    requires |keys| == n && forall k | 1 <= k <= n :: k in keys
    ensures forall k <- keys :: 1 <= k <= n
  {
    if n == 0 {
      assert keys == {};
    } else {
      var rest := keys - {n};
      KeysAreRange(rest, n - 1);
      forall k <- keys ensures 1 <= k <= n { if k != n { assert k in rest; } }
    }
  }

  lemma {:induction false} RangeBound(keys: set<int>, n: nat)
    requires forall k <- keys :: 1 <= k <= n
    ensures |keys| <= n
  {
    if n == 0 {
      assert forall k :: k !in keys;
      assert keys == {};
    } else {
      var rest := keys - {n};
      RangeBound(rest, n - 1);
      assert |keys| <= |rest| + 1 by { assert keys <= rest + {n}; }
    }
  }

  /** A gap below the number of passes cannot be part of any contiguous numbering. */
  lemma MissingBreaks(assets: seq<Asset>, tags: seq<Tag>, byIndex: map<int, Asset>, pos: map<int, int>, missing: int)
    requires Indexed(assets, tags, |assets|, byIndex, pos) && 1 <= missing <= |byIndex| && missing !in byIndex
    ensures forall n: nat :: !Contiguous(tags, n)
  {
    forall n: nat ensures !Contiguous(tags, n) {
      if Contiguous(tags, n) {
        assert !HasPass(tags, missing);
        forall k <- byIndex.Keys ensures 1 <= k <= n { assert PassAt(tags, pos[k], k) && HasPass(tags, k); }
        RangeBound(byIndex.Keys, n);
        assert false;
      }
    }
  }

  lemma IndexedIsContiguous(assets: seq<Asset>, tags: seq<Tag>, byIndex: map<int, Asset>, pos: map<int, int>, n: nat)
    requires Indexed(assets, tags, |assets|, byIndex, pos) && n == |byIndex| && forall k | 1 <= k <= n :: k in byIndex
    ensures Contiguous(tags, n)
  {
    KeysAreRange(byIndex.Keys, n);
    forall k ensures HasPass(tags, k) <==> 1 <= k <= n {
      if 1 <= k <= n { assert PassAt(tags, pos[k], k); }
      if HasPass(tags, k) {
        var i :| PassAt(tags, i, k);
        assert k in byIndex.Keys;
      }
    }
  }

  /** The second loop: collect 1..n in order, or name the first number that is missing. */
  method CollectPasses(assets: seq<Asset>, tags: seq<Tag>, byIndex: map<int, Asset>, ghost pos: map<int, int>)
    returns (missing: nat, passes: seq<Asset>)
    requires Indexed(assets, tags, |assets|, byIndex, pos)
    ensures missing == 0 ==> Contiguous(tags, |passes|) && InPassOrder(assets, tags, passes)
    ensures missing > 0 ==> !HasPass(tags, missing) && forall n: nat :: !Contiguous(tags, n)
    ensures missing > 0 ==> forall k | 1 <= k < missing :: HasPass(tags, k)
  {
    passes := [];
    for index := 1 to |byIndex| + 1
      invariant |passes| == index - 1
      invariant forall k | 1 <= k < index :: k in byIndex && passes[k - 1] == byIndex[k]
    {
      if index !in byIndex {
        MissingBreaks(assets, tags, byIndex, pos, index);
        forall k | 1 <= k < index ensures HasPass(tags, k) { assert PassAt(tags, pos[k], k); }
        return index, passes;
      }
      passes := passes + [byIndex[index]];
    }
    IndexedIsContiguous(assets, tags, byIndex, pos, |byIndex|);
    forall k | 0 <= k < |passes| ensures IsPassNo(assets, tags, passes[k], k + 1) {
      assert PassAt(tags, pos[k + 1], k + 1);
    }
    return 0, passes;
  }

  /**
   processImageAssets accepts exactly the manifests that have a final asset and whose pass numbers are 1..n
   without a duplicate, and returns those assets in pass order.
   */
  method ProcessImageAssets(assets: seq<Asset>) returns (r: Images)
    ensures r.Accepted? <==> HasFinal(assets) && exists n: nat :: Contiguous(Tags(assets), n)
    ensures r.Accepted? ==> && IsFirst(assets, FINAL, r.final) && Contiguous(Tags(assets), |r.passes|)
                            && InPassOrder(assets, Tags(assets), r.passes)
    ensures r.NoFinal? <==> !HasFinal(assets)
    // Each other refusal names something that is really wrong.
    ensures r.Malformed? ==> Bad in Tags(assets)
    ensures r.Duplicate? ==> exists i, j, k :: i != j && PassAt(Tags(assets), i, k) && PassAt(Tags(assets), j, k)
    ensures r.Broken? ==> !HasPass(Tags(assets), r.missing) && forall k | 1 <= k < r.missing :: HasPass(Tags(assets), k)
  {
    var final := AssetByName(assets, FINAL);
    if final.None? { return NoFinal; }
    var tags := Tags(assets);
    var fault, byIndex, pos := IndexPasses(assets, tags);
    if fault.Some? { return fault.value; }
    var missing, passes := CollectPasses(assets, tags, byIndex, pos);
    if missing > 0 { return Broken(missing); }
    return Accepted(final.value, passes);
  }

  /** The accepted passes are determined by the manifest. */
  lemma PassOrderIsUnique(assets: seq<Asset>, p: seq<Asset>, q: seq<Asset>)
    requires Contiguous(Tags(assets), |p|) && Contiguous(Tags(assets), |q|)
    requires InPassOrder(assets, Tags(assets), p) && InPassOrder(assets, Tags(assets), q)
    ensures p == q
  {
    var tags := Tags(assets);
    SameLength(tags, |p|, |q|);
    forall k | 0 <= k < |p| ensures p[k] == q[k] {
      assert IsPassNo(assets, tags, p[k], k + 1) && IsPassNo(assets, tags, q[k], k + 1);
    }
  }

  lemma PassIsCollected(assets: seq<Asset>, passes: seq<Asset>, i: int)
    requires Contiguous(Tags(assets), |passes|) && InPassOrder(assets, Tags(assets), passes)
    requires 0 <= i < |assets| && Tags(assets)[i].Pass?
    ensures assets[i] in passes
  {
    var (tags, k) := (Tags(assets), Tags(assets)[i].n);
    assert PassAt(tags, i, k) && HasPass(tags, k);
    assert IsPassNo(assets, tags, passes[k - 1], k);
  }

  lemma SameLength(tags: seq<Tag>, n: nat, m: nat)
    requires Contiguous(tags, n) && Contiguous(tags, m)
    ensures n == m
  {
    assert HasPass(tags, n) <==> 1 <= n <= m;
    assert HasPass(tags, m) <==> 1 <= m <= n;
  }

  // ---------------------------------------------------------------- processChain

  /** repository.Load: a stored manifest carries the id it is stored under. */
  ghost predicate Coherent(repo: map<Id, Manifest>) {
    forall id <- repo :: repo[id].id == id
  }

  /** Each manifest is the recorded, stored parent of the one before it, all of one workload. */
  ghost predicate Descends(repo: map<Id, Manifest>, first: Manifest, chain: seq<Manifest>) {
    && chain != [] && chain[0] == first
    && forall i, j | 0 <= i && j == i + 1 && j < |chain| :: IsParent(repo, chain[i], chain[j]) && chain[j].workload == first.workload
  }

  ghost predicate IsParent(repo: map<Id, Manifest>, child: Manifest, parent: Manifest) {
    child.parent.Some? && child.parent.value in repo && parent == repo[child.parent.value]
  }

  ghost predicate Distinct(chain: seq<Manifest>) {
    forall i, j | 0 <= i < j < |chain| :: chain[i].id != chain[j].id
  }

  /** A whole lineage: it descends to a manifest without a parent, repeats none, and is no longer than allowed. */
  ghost predicate Lineage(repo: map<Id, Manifest>, first: Manifest, chain: seq<Manifest>) {
    Descends(repo, first, chain) && Distinct(chain) && |chain| <= 256 && chain[|chain| - 1].parent.None?
  }

  /** Two descents from one manifest agree as far as both go. */
  lemma {:induction false} DescentsAgree(repo: map<Id, Manifest>, first: Manifest, p: seq<Manifest>, q: seq<Manifest>, k: nat)
    requires Descends(repo, first, p) && Descends(repo, first, q) && k < |p| && k < |q|
    ensures p[k] == q[k]
  {
    if k > 0 {
      DescentsAgree(repo, first, p, q, k - 1);
      assert IsParent(repo, p[k - 1], p[k]) && IsParent(repo, q[k - 1], q[k]);
    }
  }

  /** A descent that has a parent left is shorter than any whole lineage. */
  lemma LineageGoesOn(repo: map<Id, Manifest>, first: Manifest, chain: seq<Manifest>, whole: seq<Manifest>)
    requires Descends(repo, first, chain) && Lineage(repo, first, whole) && chain[|chain| - 1].parent.Some?
    ensures |chain| < |whole|
    ensures forall k | 0 <= k < |chain| :: chain[k] == whole[k]
  {
    if |whole| <= |chain| {
      if |whole| < |chain| { assert IsParent(repo, chain[|whole| - 1], chain[|whole|]); }
      DescentsAgree(repo, first, chain, whole, |whole| - 1);
    }
    forall k | 0 <= k < |chain| && k < |whole| ensures chain[k] == whole[k] { DescentsAgree(repo, first, chain, whole, k); }
  }

  lemma LineageIsUnique(repo: map<Id, Manifest>, first: Manifest, p: seq<Manifest>, q: seq<Manifest>)
    requires Lineage(repo, first, p) && Lineage(repo, first, q)
    ensures p == q
  {
    if |p| < |q| { assert IsParent(repo, q[|p| - 1], q[|p|]); }
    if |q| < |p| { assert IsParent(repo, p[|q| - 1], p[|q|]); }
    var k := (if |p| < |q| then |p| else |q|) - 1;
    forall i | 0 <= i <= k ensures p[i] == q[i] { DescentsAgree(repo, first, p, q, i); }
    assert p[k] == q[k];
  }

  /** A manifest whose parent is already in its chain has no lineage. */
  lemma CycleBreaks(repo: map<Id, Manifest>, first: Manifest, chain: seq<Manifest>, i: nat)
    requires Descends(repo, first, chain) && i < |chain|
    requires var last := chain[|chain| - 1];
             last.parent.Some? && last.parent.value in repo && repo[last.parent.value].id == chain[i].id
    ensures forall whole: seq<Manifest> :: !Lineage(repo, first, whole)
  {
    forall whole: seq<Manifest> | Descends(repo, first, whole) && |chain| < |whole| ensures !Distinct(whole) {
      DescentsAgree(repo, first, chain, whole, |chain| - 1);
      DescentsAgree(repo, first, chain, whole, i);
      assert IsParent(repo, whole[|chain| - 1], whole[|chain|]);
      assert whole[i].id == whole[|chain|].id;
    }
    forall whole: seq<Manifest> ensures !Lineage(repo, first, whole) {
      if Lineage(repo, first, whole) { LineageGoesOn(repo, first, chain, whole); }
    }
  }

  /**
   The parent walk of processChain. It ends on every repository, cyclic ones included, and succeeds exactly
   when the manifest has a whole lineage, which it returns newest first.
   */
  method WalkParents(repo: map<Id, Manifest>, first: Manifest) returns (chain: seq<Manifest>, ok: bool)
    requires Coherent(repo)
    ensures ok ==> Lineage(repo, first, chain)
    ensures !ok ==> forall whole: seq<Manifest> :: !Lineage(repo, first, whole)
  {
    chain := [first];
    var seen, current := {first.id}, first;
    while current.parent.Some?
      invariant Descends(repo, first, chain) && Distinct(chain) && |chain| <= MAX_CHAIN
      invariant current == chain[|chain| - 1]
      invariant seen == set m | m in chain :: m.id
      decreases MAX_CHAIN - |chain|
    {
      forall whole: seq<Manifest> | Lineage(repo, first, whole)
        ensures |chain| < |whole| && IsParent(repo, current, whole[|chain|]) && whole[|chain|].workload == first.workload
      {
        LineageGoesOn(repo, first, chain, whole);
        assert IsParent(repo, whole[|chain| - 1], whole[|chain|]);
      }
      if |chain| >= MAX_CHAIN { return chain, false; }
      if current.parent.value !in repo { return chain, false; }
      var parent := repo[current.parent.value];
      if parent.workload != first.workload { return chain, false; }
      if parent.id in seen {
        ghost var i :| 0 <= i < |chain| && chain[i].id == parent.id;
        CycleBreaks(repo, first, chain, i);
        return chain, false;
      }
      ghost var shorter := chain;
      chain, seen, current := chain + [parent], seen + {parent.id}, parent;
      assert forall m :: m in chain <==> m in shorter || m == parent;
    }
    return chain, true;
  }

  /** A member's process images are accepted, and the final set and every pass are intact. */
  ghost predicate Restorable(m: Manifest, intact: set<Asset>) {
    && (exists f :: IsFirst(m.assets, FINAL, f) && f in intact)
    && exists n: nat :: Contiguous(Tags(m.assets), n) && forall i | 0 <= i < |m.assets| && Tags(m.assets)[i].Pass? :: m.assets[i] in intact
  }

  /** Checks one member: processImageAssets, then chunks.ValidateAsset on the final set and every pass. */
  method CheckMember(m: Manifest, intact: set<Asset>) returns (ok: bool)
    ensures ok <==> Restorable(m, intact)
  {
    var images := ProcessImageAssets(m.assets);
    if !images.Accepted? { return false; }
    var all := [images.final] + images.passes;
    for i := 0 to |all|
      invariant forall j | 0 <= j < i :: all[j] in intact
    {
      if all[i] !in intact { return false; }
    }
    assert all[0] == images.final;
    forall i | 0 <= i < |m.assets| && Tags(m.assets)[i].Pass? ensures m.assets[i] in intact {
      PassIsCollected(m.assets, images.passes, i);
      var k :| 0 <= k < |images.passes| && images.passes[k] == m.assets[i];
      assert all[k + 1] == m.assets[i];
    }
    return true;
  }

  /**
   processChain: the lineage of a checkpoint, accepted exactly when it is whole and every member's process
   images are in place.
   */
  method ProcessChain(repo: map<Id, Manifest>, first: Manifest, intact: set<Asset>) returns (chain: seq<Manifest>, ok: bool)
    requires Coherent(repo)
    ensures ok ==> Lineage(repo, first, chain) && forall m <- chain :: Restorable(m, intact)
    ensures ok <==> exists whole :: Lineage(repo, first, whole) && forall m <- whole :: Restorable(m, intact)
  {
    chain, ok := WalkParents(repo, first);
    if !ok { return; }
    for i := 0 to |chain|
      invariant forall j | 0 <= j < i :: Restorable(chain[j], intact)
    {
      ok := CheckMember(chain[i], intact);
      if !ok {
        forall whole | Lineage(repo, first, whole) ensures chain[i] in whole { LineageIsUnique(repo, first, chain, whole); }
        return;
      }
    }
    ok := true;
  }
}
