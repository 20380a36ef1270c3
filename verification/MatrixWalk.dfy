/**
 The backtracking walk over a matrix (internal/config/expand.go, inside matrixCombinations).
 Main results: the walk lists every total assignment exactly once, in lexicographic order, and puts
 the shared assignment back as it found it.
 */
module MatrixWalk {
  import opened Text

  type Vars = map<string, string>
  type Matrix = map<string, seq<string>>

  // -------------------------------------------------------- the assignments

  /** Each map of `cs` laid over `base`. */
  function Extend(base: Vars, cs: seq<Vars>): (r: seq<Vars>)
    ensures |r| == |cs| && forall i :: 0 <= i < |cs| ==> r[i] == base + cs[i]
  {
    seq(|cs|, i requires 0 <= i < |cs| => base + cs[i])
  }

  function Branches(k: string, values: seq<string>, rest: seq<Vars>): seq<Vars> {
    if values == [] then []
    else Branches(k, values[..|values| - 1], rest) + Extend(map[k := values[|values| - 1]], rest)
  }

  /** All assignments of values to `keys`, the first key varying slowest. */
  function Product(keys: seq<string>, m: Matrix): seq<Vars>
    requires forall k :: k in keys ==> k in m
  {
    if keys == [] then [map[]]
    else Branches(keys[0], m[keys[0]], Product(keys[1..], m))
  }

  /** The backtracking walk: one shared assignment, changed in place and copied at every leaf. */
  class Walker {
    const keys: seq<string>
    const matrix: Matrix
    var current: Vars
    var combos: seq<Vars>

    ghost predicate Valid() {
      forall k :: k in keys ==> k in matrix
    }

    constructor (keys: seq<string>, matrix: Matrix)
      requires forall k :: k in keys ==> k in matrix
      ensures Valid() && this.keys == keys && this.matrix == matrix && current == map[] && combos == []
    {
      this.keys, this.matrix, current, combos := keys, matrix, map[], [];
    }

    /** Lists all ways to complete the shared assignment, and puts it back as it was. */
    method Walk(idx: nat)
      requires Valid() && idx <= |keys|
      modifies this
      ensures combos == old(combos) + Extend(old(current), Product(keys[idx..], matrix))
      ensures SameOutside(current, old(current), Elems(keys[idx..]))
      ensures NoDup(keys[idx..]) && Clear(old(current), Elems(keys[idx..])) ==> current == old(current)
      decreases |keys| - idx, 1
    {
      hide Branches;
      hide Extend;
      hide Product;
      hide NoDup;
      hide SameOutside;
      hide Clear;
      hide Without;
      if idx >= |keys| {
        LeafUnfold(keys, idx, matrix, current);
        combos := combos + [current];
        return;
      }
      WalkUnfold(keys, idx, matrix, current);
      var key := keys[idx];
      ghost var scope, rest := Elems(keys[idx..]), Product(keys[idx + 1..], matrix);
      ghost var base, had := current, combos;
      ghost var clean := NoDup(keys[idx..]) && Clear(base, scope);
      var values := matrix[key];
      ScopeStart(base, key, scope);
      for i := 0 to |values|
        invariant combos == had + Extend(base, Branches(key, values[..i], rest))
        invariant SameOutside(current, base, scope)
        invariant clean ==> Without(current, key) == base
      {
        BranchStep(had, base, current, key, values, i, rest, scope);
        ghost var before := current;
        WalkValue(idx, values[i]);
        ScopeTrans(base, before, current, key, values[i], scope);
      }
      assert values[..|values|] == values;
      ScopeDrop(base, current, key, scope);
      current := Without(current, key);
    }

    /** One turn of the loop: set the key, walk on. */
    method WalkValue(idx: nat, value: string)
      requires Valid() && idx < |keys|
      modifies this
      ensures combos == old(combos) + Extend(old(current)[keys[idx] := value], Product(keys[idx + 1..], matrix))
      ensures SameOutside(current, old(current), Elems(keys[idx..]))
      ensures NoDup(keys[idx..]) && Clear(Without(old(current), keys[idx]), Elems(keys[idx..]))
          ==> current == old(current)[keys[idx] := value]
      decreases |keys| - idx, 0
    {
      hide Branches;
      hide Extend;
      hide Product;
      hide NoDup;
      hide SameOutside;
      hide Clear;
      hide Without;
      WalkUnfold(keys, idx, matrix, current);
      ghost var before, later := current, Elems(keys[idx + 1..]);
      current := current[keys[idx] := value];
      ScopeSet(before, keys[idx], value, later);
      Walk(idx + 1);
      ScopeStep(before, current, keys[idx], value, later);
    }
  }

  /** The two assignments differ on `scope` at most. */
  ghost predicate SameOutside(a: Vars, b: Vars, scope: set<string>) {
    a - scope == b - scope
  }

  /** `delete(current, key)`. */
  function Without(a: Vars, key: string): Vars {
    a - {key}
  }

  ghost predicate Clear(a: Vars, scope: set<string>) {
    a.Keys !! scope
  }

  lemma ScopeStart(base: Vars, key: string, scope: set<string>)
    requires key in scope
    ensures SameOutside(base, base, scope) && (Clear(base, scope) ==> Without(base, key) == base)
  {}

  lemma ScopeSet(before: Vars, key: string, v: string, later: set<string>)
    ensures key !in later && Clear(Without(before, key), later + {key}) ==> Clear(before[key := v], later)
  {
    assert forall k :: k in before && k != key ==> k in before - {key};
  }

  lemma ScopeStep(before: Vars, after: Vars, key: string, v: string, later: set<string>)
    requires SameOutside(after, before[key := v], later)
    ensures SameOutside(after, before, later + {key})
  {
    calc {
      after - (later + {key});
      (after - later) - {key};
      (before[key := v] - later) - {key};
      before - (later + {key});
    }
  }

  lemma ScopeTrans(base: Vars, before: Vars, after: Vars, key: string, v: string, scope: set<string>)
    requires SameOutside(after, before, scope) && SameOutside(before, base, scope)
    ensures SameOutside(after, base, scope)
    ensures after == before[key := v] && Without(before, key) == base ==> Without(after, key) == base
  {}

  lemma ScopeDrop(base: Vars, current: Vars, key: string, scope: set<string>)
    requires SameOutside(current, base, scope) && key in scope
    ensures SameOutside(Without(current, key), base, scope)
  {
    assert (current - {key}) - scope == current - scope;
  }

  lemma LeafUnfold(keys: seq<string>, idx: nat, m: Matrix, base: Vars)
    requires (forall k :: k in keys ==> k in m) && idx == |keys|
    ensures Extend(base, Product(keys[idx..], m)) == [base] && SameOutside(base, base, Elems(keys[idx..]))
  {
    assert keys[idx..] == [];
    assert base + map[] == base;
  }

  lemma WalkUnfold(keys: seq<string>, idx: nat, m: Matrix, base: Vars)
    requires (forall k :: k in keys ==> k in m) && idx < |keys|
    ensures var key, later := keys[idx], keys[idx + 1..];
      && key in m && (forall k :: k in later ==> k in m)
      && Elems(keys[idx..]) == Elems(later) + {key}
      && (NoDup(keys[idx..]) ==> NoDup(later) && key !in Elems(later))
      && Product(keys[idx..], m) == Branches(key, m[key], Product(later, m))
      && (forall c :: c in Product(later, m) ==> c.Keys == Elems(later))
      && Extend(base, Branches(key, m[key][..0], Product(later, m))) == []
  {
    var key, later := keys[idx], keys[idx + 1..];
    assert keys[idx..] == [key] + later && keys[idx..][1..] == later;
    ElemsCons(key, later);
    NoDupTail(key, later);
    ProductKeys(later, m);
  }

  lemma NoDupTail(k: string, later: seq<string>)
    ensures NoDup([k] + later) ==> NoDup(later) && k !in Elems(later)
  {
    var s := [k] + later;
    assert forall i :: 0 <= i < |later| ==> later[i] == s[i + 1];
    if NoDup(s) {
      forall x | x in later ensures x != k {
        var i :| 0 <= i < |later| && later[i] == x;
        assert s[0] != s[i + 1];
      }
    }
  }

  lemma ExtendAppend(base: Vars, a: seq<Vars>, b: seq<Vars>)
    ensures Extend(base, a + b) == Extend(base, a) + Extend(base, b)
  {}

  lemma BranchStep(had: seq<Vars>, base: Vars, before: Vars, key: string, values: seq<string>, i: nat, rest: seq<Vars>, scope: set<string>)
    requires i < |values| && forall c :: c in rest ==> c.Keys + {key} == scope
    requires SameOutside(before, base, scope)
    ensures had + Extend(base, Branches(key, values[..i + 1], rest))
         == had + Extend(base, Branches(key, values[..i], rest)) + Extend(before[key := values[i]], rest)
  {
    hide Extend;
    var v := values[i];
    var bs, ext := Branches(key, values[..i], rest), Extend(map[key := v], rest);
    assert values[..i + 1][..i] == values[..i];
    ExtendAppend(base, bs, ext);
    ExtendOver(base, before, key, v, rest, scope);
    var x, y := Extend(base, bs), Extend(before[key := v], rest);
    assert had + (x + y) == had + x + y;
  }

  lemma ExtendOver(base: Vars, before: Vars, key: string, v: string, rest: seq<Vars>, scope: set<string>)
    requires forall c :: c in rest ==> c.Keys + {key} == scope
    requires SameOutside(before, base, scope)
    ensures Extend(base, Extend(map[key := v], rest)) == Extend(before[key := v], rest)
  {
    hide Extend;
    var ext := Extend(map[key := v], rest);
    forall j | 0 <= j < |rest| ensures base + ext[j] == before[key := v] + rest[j] {
      assert rest[j] in rest;
      OverlayAgree(base, before, key, v, rest[j]);
    }
  }

  lemma OverlayAgree(base: Vars, before: Vars, key: string, v: string, c: Vars)
    requires before - (c.Keys + {key}) == base - (c.Keys + {key})
    ensures base + (map[key := v] + c) == before[key := v] + c
  {
    var out := c.Keys + {key};
    forall k | k !in out ensures (k in base <==> k in before) && (k in base ==> base[k] == before[k]) {
      assert k in base <==> k in base - out;
      assert k in before <==> k in before - out;
      assert k in base ==> base[k] == (base - out)[k] && k in before - out ==> before[k] == (before - out)[k];
    }
  }

  // ------------------------------------------------- what the walk lists

  ghost predicate Total(keys: seq<string>, m: Matrix, c: Vars) {
    c.Keys == Elems(keys) && forall k :: k in keys ==> k in c && k in m && c[k] in m[k]
  }

  lemma {:induction false} ProductKeys(keys: seq<string>, m: Matrix)
    requires forall k :: k in keys ==> k in m
    ensures forall c :: c in Product(keys, m) ==> c.Keys == Elems(keys)
  {
    if keys != [] {
      ProductKeys(keys[1..], m);
      ElemsCons(keys[0], keys[1..]);
      assert keys == [keys[0]] + keys[1..];
      BranchesKeys(keys[0], m[keys[0]], Product(keys[1..], m), Elems(keys[1..]));
    }
  }

  lemma {:induction false} BranchesKeys(k: string, values: seq<string>, rest: seq<Vars>, later: set<string>)
    requires forall c :: c in rest ==> c.Keys == later
    ensures forall c :: c in Branches(k, values, rest) ==> c.Keys == later + {k}
  {
    if values != [] { BranchesKeys(k, values[..|values| - 1], rest, later); }
  }

  ghost predicate Branch(k: string, v: string, r: Vars, c: Vars) {
    c == map[k := v] + r
  }

  lemma ExtendMembers(k: string, v: string, rest: seq<Vars>, c: Vars)
    ensures c in Extend(map[k := v], rest) <==> exists r :: r in rest && Branch(k, v, r, c)
  {
    var ext := Extend(map[k := v], rest);
    if c in ext {
      var i :| 0 <= i < |ext| && ext[i] == c;
      assert rest[i] in rest && Branch(k, v, rest[i], c);
    }
    if r :| r in rest && Branch(k, v, r, c) {
      var i :| 0 <= i < |rest| && rest[i] == r;
      assert ext[i] == c;
    }
  }

  /** Exactly the maps obtained by choosing a value for `k` and an entry of `rest`. */
  lemma {:induction false} BranchesMembers(k: string, values: seq<string>, rest: seq<Vars>, c: Vars)
    ensures c in Branches(k, values, rest) <==>
      exists v, r :: v in values && r in rest && Branch(k, v, r, c)
  {
    hide Branch;
    if values != [] {
      var front, last := values[..|values| - 1], values[|values| - 1];
      BranchesMembers(k, front, rest, c);
      ExtendMembers(k, last, rest, c);
      assert values == front + [last];
    }
  }

  /** The list holds exactly the total assignments. */
  lemma {:induction false} ProductMembers(keys: seq<string>, m: Matrix, c: Vars)
    requires (forall k :: k in keys ==> k in m) && NoDup(keys)
    ensures c in Product(keys, m) <==> Total(keys, m, c)
  {
    hide Total;
    hide Branch;
    if keys == [] {
      TotalEmpty(m, c);
    } else {
      var k, later := keys[0], keys[1..];
      var rest := Product(later, m);
      assert keys == [k] + later;
      NoDupTail(k, later);
      BranchesMembers(k, m[k], rest, c);
      if v, r :| v in m[k] && r in rest && Branch(k, v, r, c) {
        ProductMembers(later, m, r);
        TotalCons(k, later, m, v, r, c);
      }
      if Total(keys, m, c) {
        TotalTail(k, later, m, c);
        ProductMembers(later, m, c - {k});
      }
    }
  }

  lemma TotalEmpty(m: Matrix, c: Vars)
    ensures Total([], m, c) <==> c == map[]
  {
    assert Elems<string>([]) == {};
    assert c == map[] <==> c.Keys == {};
  }

  lemma TotalCons(k: string, later: seq<string>, m: Matrix, v: string, r: Vars, c: Vars)
    requires Total(later, m, r) && k in m && v in m[k] && k !in Elems(later) && Branch(k, v, r, c)
    ensures Total([k] + later, m, c)
  {
    ElemsCons(k, later);
  }

  lemma TotalTail(k: string, later: seq<string>, m: Matrix, c: Vars)
    requires Total([k] + later, m, c) && k !in Elems(later)
    ensures k in c && k in m && c[k] in m[k] && Total(later, m, c - {k}) && Branch(k, c[k], c - {k}, c)
  {
    ElemsCons(k, later);
    assert k in [k] + later;
    assert forall j :: j in later ==> j in [k] + later && j in Elems(later);
  }

  ghost predicate LexLess(keys: seq<string>, c: Vars, d: Vars)
    requires forall k :: k in keys ==> k in c && k in d
  {
    keys != [] &&
    (Less(c[keys[0]], d[keys[0]]) || (c[keys[0]] == d[keys[0]] && LexLess(keys[1..], c, d)))
  }

  lemma {:induction false} LexIrreflexive(keys: seq<string>, c: Vars)
    requires forall k :: k in keys ==> k in c
    ensures !LexLess(keys, c, c)
  {
    if keys != [] {
      LessIrreflexive(c[keys[0]]);
      LexIrreflexive(keys[1..], c);
    }
  }

  lemma {:induction false} LexLocal(keys: seq<string>, c: Vars, d: Vars, c': Vars, d': Vars)
    requires forall k :: k in keys ==> k in c && k in d && k in c' && k in d' && c[k] == c'[k] && d[k] == d'[k]
    ensures LexLess(keys, c, d) == LexLess(keys, c', d')
  {
    if keys != [] { LexLocal(keys[1..], c, d, c', d'); }
  }

  ghost predicate KeysIn(keys: seq<string>, c: Vars) {
    forall k :: k in keys ==> k in c
  }

  ghost predicate Before(keys: seq<string>, c: Vars, d: Vars) {
    KeysIn(keys, c) && KeysIn(keys, d) && LexLess(keys, c, d)
  }

  ghost predicate LexAscending(keys: seq<string>, cs: seq<Vars>) {
    forall i, j :: 0 <= i < j < |cs| ==> Before(keys, cs[i], cs[j])
  }

  lemma ExtendBefore(k: string, later: seq<string>, v: string, c: Vars, d: Vars)
    requires k !in later && k !in c && k !in d && Before(later, c, d)
    ensures Before([k] + later, map[k := v] + c, map[k := v] + d)
  {
    var a, b, keys := map[k := v] + c, map[k := v] + d, [k] + later;
    assert keys[1..] == later;
    LexLocal(later, c, d, a, b);
  }

  lemma ValueBefore(k: string, later: seq<string>, c: Vars, d: Vars)
    requires KeysIn([k] + later, c) && KeysIn([k] + later, d)
    requires k in c && k in d && Less(c[k], d[k])
    ensures Before([k] + later, c, d)
  {}

  lemma {:induction false} BranchesAscending(k: string, later: seq<string>, values: seq<string>, rest: seq<Vars>)
    requires LexAscending(later, rest) && (forall r :: r in rest ==> KeysIn(later, r) && k !in r)
    requires k !in later && Ascending(values)
    ensures LexAscending([k] + later, Branches(k, values, rest))
    ensures forall c :: c in Branches(k, values, rest) ==> KeysIn([k] + later, c) && k in c && c[k] in values
  {
    hide Before;
    hide KeysIn;
    if values != [] {
      var front, last := values[..|values| - 1], values[|values| - 1];
      BranchesAscending(k, later, front, rest);
      var keys, bs, ext := [k] + later, Branches(k, front, rest), Extend(map[k := last], rest);
      forall i | 0 <= i < |ext| ensures KeysIn(keys, ext[i]) && k in ext[i] && ext[i][k] == last {
        assert rest[i] in rest;
        KeysInCons(k, later, last, rest[i]);
      }
      forall i, j | 0 <= i < j < |ext| ensures Before(keys, ext[i], ext[j]) {
        ExtendBefore(k, later, last, rest[i], rest[j]);
      }
      forall i, j | 0 <= i < |bs| && 0 <= j < |ext| ensures Before(keys, bs[i], ext[j]) {
        assert bs[i] in bs;
        var n :| 0 <= n < |front| && front[n] == bs[i][k];
        assert Less(values[n], values[|values| - 1]);
        ValueBefore(k, later, bs[i], ext[j]);
      }
      AscendingConcat(keys, bs, ext);
      assert forall c :: c in bs + ext ==> c in bs || exists i :: 0 <= i < |ext| && ext[i] == c;
    }
  }

  lemma KeysInCons(k: string, later: seq<string>, v: string, r: Vars)
    requires KeysIn(later, r)
    ensures KeysIn([k] + later, map[k := v] + r)
  {}

  lemma AscendingConcat(keys: seq<string>, a: seq<Vars>, b: seq<Vars>)
    requires LexAscending(keys, a) && LexAscending(keys, b)
    requires forall i, j :: 0 <= i < |a| && 0 <= j < |b| ==> Before(keys, a[i], b[j])
    ensures LexAscending(keys, a + b)
  {
    hide Before;
  }

  /** The list is in lexicographic order, hence without repetitions. */
  lemma {:induction false} ProductAscending(keys: seq<string>, m: Matrix)
    requires (forall k :: k in keys ==> k in m && Ascending(m[k])) && NoDup(keys)
    ensures LexAscending(keys, Product(keys, m)) && NoDup(Product(keys, m))
  {
    if keys != [] {
      var k, later := keys[0], keys[1..];
      assert keys == [k] + later;
      NoDupTail(k, later);
      ProductAscending(later, m);
      ProductKeys(later, m);
      assert forall r :: r in Product(later, m) ==> KeysIn(later, r) && k !in r;
      BranchesAscending(k, later, m[k], Product(later, m));
    }
    var cs := Product(keys, m);
    forall i, j | 0 <= i < j < |cs| ensures cs[i] != cs[j] {
      assert Before(keys, cs[i], cs[j]);
      LexIrreflexive(keys, cs[i]);
    }
  }

  function CountAll(keys: seq<string>, m: Matrix): nat
    requires forall k :: k in keys ==> k in m
  {
    if keys == [] then 1 else |m[keys[0]]| * CountAll(keys[1..], m)
  }

  lemma {:induction false} BranchesCount(k: string, values: seq<string>, rest: seq<Vars>)
    ensures |Branches(k, values, rest)| == |values| * |rest|
  {
    if values != [] {
      BranchesCount(k, values[..|values| - 1], rest);
      assert |values| * |rest| == (|values| - 1) * |rest| + |rest|;
    }
  }

  lemma {:induction false} ProductCount(keys: seq<string>, m: Matrix)
    requires forall k :: k in keys ==> k in m
    ensures |Product(keys, m)| == CountAll(keys, m)
  {
    if keys != [] {
      ProductCount(keys[1..], m);
      BranchesCount(keys[0], m[keys[0]], Product(keys[1..], m));
    }
  }

  // ------------------------------------------------------------ repeated keys

  predicate Repeated(keys: seq<string>, k: string) {
    multiset(keys)[k] >= 2
  }

  /** Every key that comes more than once has exactly one value. */
  ghost predicate SingleRepeats(keys: seq<string>, m: Matrix) {
    forall k :: k in keys && Repeated(keys, k) ==> k in m && |m[k]| == 1
  }

  /** Each key at its last place only. */
  function Uniq(keys: seq<string>): (r: seq<string>)
    ensures forall k :: k in r <==> k in keys
  {
    if keys == [] then []
    else
      assert keys == [keys[0]] + keys[1..];
      if keys[0] in keys[1..] then Uniq(keys[1..]) else [keys[0]] + Uniq(keys[1..])
  }

  lemma {:induction false} UniqAscending(keys: seq<string>)
    requires Sorted(keys)
    ensures Ascending(Uniq(keys))
  {
    if keys != [] {
      var k, later := keys[0], keys[1..];
      UniqAscending(later);
      forall j | 0 <= j < |Uniq(later)| && k !in later ensures Less(k, Uniq(later)[j]) {
        assert Uniq(later)[j] in later;
        var i :| 0 <= i < |later| && later[i] == Uniq(later)[j];
        assert Leq(keys[0], keys[i + 1]);
      }
    }
  }

  lemma RepeatedCons(k: string, later: seq<string>, j: string)
    ensures Repeated([k] + later, j) <==> Repeated(later, j) || (j == k && k in later)
  {
    assert multiset([k] + later) == multiset{k} + multiset(later);
    assert k in later <==> k in multiset(later);
  }

  /** Setting a key that the rest sets again has no effect. */
  lemma ExtendAbsorbed(k: string, v: string, rest: seq<Vars>)
    requires forall c :: c in rest ==> k in c
    ensures Extend(map[k := v], rest) == rest
  {
    forall i | 0 <= i < |rest| ensures map[k := v] + rest[i] == rest[i] { assert rest[i] in rest; }
  }

  lemma SingleBranch(k: string, v: string, rest: seq<Vars>)
    ensures Branches(k, [v], rest) == Extend(map[k := v], rest)
  {
    assert [v][..0] == [];
    assert Branches(k, [], rest) == [];
  }

  /** A repeated key with one value may as well come once. */
  lemma {:induction false} ProductUniq(keys: seq<string>, m: Matrix)
    requires (forall k :: k in keys ==> k in m) && SingleRepeats(keys, m)
    ensures Product(keys, m) == Product(Uniq(keys), m)
  {
    if keys != [] {
      var k, later := keys[0], keys[1..];
      assert keys == [k] + later;
      forall j | j in later && Repeated(later, j) ensures j in m && |m[j]| == 1 { RepeatedCons(k, later, j); }
      ProductUniq(later, m);
      if k in later {
        RepeatedCons(k, later, k);
        ProductKeys(later, m);
        SingleBranch(k, m[k][0], Product(later, m));
        assert m[k] == [m[k][0]];
        ExtendAbsorbed(k, m[k][0], Product(later, m));
      } else {
        assert ([k] + Uniq(later))[1..] == Uniq(later);
      }
    }
  }

  lemma ConcatRepeats<T>(a: seq<T>, b: seq<T>, x: T)
    requires x in a && x in b
    ensures !NoDup(a + b)
  {
    var i :| 0 <= i < |a| && a[i] == x;
    var j :| 0 <= j < |b| && b[j] == x;
    assert (a + b)[i] == (a + b)[|a| + j];
  }

  lemma ConcatKeepsRepeats<T>(a: seq<T>, b: seq<T>)
    requires !NoDup(b)
    ensures !NoDup(a + b)
  {
    var i, j :| 0 <= i < j < |b| && b[i] == b[j];
    assert (a + b)[|a| + i] == (a + b)[|a| + j];
  }

  lemma ExtendRepeats(base: Vars, rest: seq<Vars>)
    requires !NoDup(rest)
    ensures !NoDup(Extend(base, rest))
  {
    var i, j :| 0 <= i < j < |rest| && rest[i] == rest[j];
    assert Extend(base, rest)[i] == Extend(base, rest)[j];
  }

  /** A repeated key with several values lists every assignment several times. */
  lemma {:induction false} ProductRepeats(keys: seq<string>, m: Matrix, k: string)
    requires (forall j :: j in keys ==> j in m && m[j] != []) && Repeated(keys, k) && k in keys && |m[k]| > 1
    ensures !NoDup(Product(keys, m))
  {
    hide NoDup;
    var first, later := keys[0], keys[1..];
    assert keys == [first] + later;
    RepeatedCons(first, later, k);
    var rest, values := Product(later, m), m[first];
    var n := |values| - 1;
    var most, last := Branches(first, values[..n], rest), Extend(map[first := values[n]], rest);
    if Repeated(later, k) {
      assert k in multiset(later);
      ProductRepeats(later, m, k);
      ExtendRepeats(map[first := values[n]], rest);
      ConcatKeepsRepeats(most, last);
    } else {
      ProductKeys(later, m);
      ProductNonEmpty(later, m);
      ExtendAbsorbed(first, values[n], rest);
      ExtendAbsorbed(first, values[n - 1], rest);
      assert values[..n][..n - 1] == values[..n - 1];
      assert most == Branches(first, values[..n - 1], rest) + rest;
      ConcatRepeats(most, last, rest[0]);
    }
  }

  lemma {:induction false} ProductNonEmpty(keys: seq<string>, m: Matrix)
    requires forall k :: k in keys ==> k in m && m[k] != []
    ensures Product(keys, m) != []
  {
    if keys != [] {
      ProductNonEmpty(keys[1..], m);
      BranchesCount(keys[0], m[keys[0]], Product(keys[1..], m));
    }
  }

  /** The list repeats no assignment exactly when every repeated key has one value. */
  lemma ProductNoDupIff(keys: seq<string>, m: Matrix)
    requires forall k :: k in keys ==> k in m && m[k] != [] && Ascending(m[k])
    requires Sorted(keys)
    ensures NoDup(Product(keys, m)) <==> SingleRepeats(keys, m)
  {
    hide Product;
    hide Repeated;
    hide Uniq;
    if SingleRepeats(keys, m) {
      ProductUniq(keys, m);
      UniqAscending(keys);
      AscendingSortId(Uniq(keys));
      ProductAscending(Uniq(keys), m);
    } else {
      var k :| k in keys && Repeated(keys, k) && |m[k]| != 1;
      ProductRepeats(keys, m, k);
    }
  }
}
