/**
 From a matrix to its assignments (matrixCombinations in internal/config/expand.go).
 Main results: what the list holds when trimmed keys are distinct; that the list is the same for every map order
 exactly when keys with the same trimmed name agree on their values; and exactly when it repeats an assignment.
 */
module MatrixExpand {
  import opened Text
  import opened Normalize
  import opened MatrixWalk

  // ------------------------------------------------------------ normal form

  /** Trimmed, non-blank, distinct values in ascending order. */
  function CleanValues(values: seq<string>): seq<string> {
    SortedClean(values, TrimSpace)
  }

  /** An order in which ranging over the map may yield its keys. */
  ghost predicate IsOrder<V>(m: map<string, V>, order: seq<string>) {
    Elems(order) == m.Keys && NoDup(order)
  }

  /** The trimmed names of the non-blank keys, in the order the keys are visited. */
  function Names(order: seq<string>): (r: seq<string>)
    ensures forall n :: n in r <==> exists k :: k in order && !Blank(k) && TrimSpace(k) == n
  {
    if order == [] then []
    else
      var k := order[|order| - 1];
      var front := Names(order[..|order| - 1]);
      assert forall x :: x in order <==> x in order[..|order| - 1] || x == k;
      if Blank(k) then front else front + [TrimSpace(k)]
  }

  /** Name to cleaned values; a later visit overwrites an earlier one under the same name. */
  ghost function Normalized(m: Matrix, order: seq<string>): (r: Matrix)
    requires forall k :: k in order ==> k in m
    ensures forall n :: n in r <==> n in Names(order)
  {
    if order == [] then map[]
    else
      var k := order[|order| - 1];
      var front := Normalized(m, order[..|order| - 1]);
      if Blank(k) then front else front[TrimSpace(k) := CleanValues(m[k])]
  }

  ghost predicate SomeKeyEmpty(m: Matrix, order: seq<string>)
    requires forall k :: k in order ==> k in m
  {
    exists k :: k in order && !Blank(k) && CleanValues(m[k]) == []
  }

  ghost function Combinations(m: Matrix, order: seq<string>): seq<Vars>
    requires forall k :: k in order ==> k in m
  {
    if SomeKeyEmpty(m, order) || Names(order) == [] then []
    else
      SortKeepsNames(order);
      Product(Sort(Names(order)), Normalized(m, order))
  }

  lemma SortKeepsNames(order: seq<string>)
    ensures forall n :: n in Sort(Names(order)) <==> n in Names(order)
  {
    MultisetMember(Sort(Names(order)), Names(order));
  }

  // -------------------------------------------------- the whole computation

  ghost predicate KeysWithin(m: Matrix, order: seq<string>) {
    forall k :: k in order ==> k in m
  }

  lemma OrderKeys(m: Matrix, order: seq<string>)
    requires IsOrder(m, order)
    ensures KeysWithin(m, order) && forall k :: k in m ==> k in order
  {
    assert forall k :: k in order <==> k in Elems(order);
  }

  lemma OrderSnoc(m: Matrix, order: seq<string>, k: string)
    requires KeysWithin(m, order) && k in m && k !in Elems(order) && NoDup(order)
    ensures NoDup(order + [k]) && Elems(order + [k]) == Elems(order) + {k} && KeysWithin(m, order + [k])
    ensures Names(order + [k]) == if Blank(k) then Names(order) else Names(order) + [TrimSpace(k)]
    ensures Normalized(m, order + [k]) ==
      if Blank(k) then Normalized(m, order) else Normalized(m, order)[TrimSpace(k) := CleanValues(m[k])]
    ensures SomeKeyEmpty(m, order + [k]) <==> SomeKeyEmpty(m, order) || (!Blank(k) && CleanValues(m[k]) == [])
  {
    hide Blank;
    hide CleanValues;
    assert (order + [k])[..|order|] == order;
  }

  lemma OrderComplete(m: Matrix, done: seq<string>, rest: set<string>) returns (order: seq<string>)
    requires KeysWithin(m, done) && NoDup(done) && Elems(done) == m.Keys - rest && rest <= m.Keys
    requires SomeKeyEmpty(m, done)
    ensures IsOrder(m, order) && KeysWithin(m, order) && SomeKeyEmpty(m, order)
    decreases rest
  {
    hide Blank;
    hide CleanValues;
    if rest == {} {
      order := done;
    } else {
      var k :| k in rest;
      OrderSnoc(m, done, k);
      order := OrderComplete(m, done + [k], rest - {k});
    }
  }

  /** Ranges over the map in whatever order it yields its keys, then walks. */
  method MatrixCombinations(m: Matrix) returns (combos: seq<Vars>, ghost order: seq<string>)
    ensures IsOrder(m, order) && KeysWithin(m, order) && combos == Combinations(m, order)
  {
    hide Blank;
    hide SortedClean;
    var keys: seq<string>, normalized: Matrix := [], map[];
    var rest := m.Keys;
    order := [];
    while rest != {}
      invariant rest <= m.Keys && Elems(order) == m.Keys - rest && NoDup(order) && KeysWithin(m, order)
      invariant keys == Names(order) && normalized == Normalized(m, order) && !SomeKeyEmpty(m, order)
    {
      var key :| key in rest;
      OrderSnoc(m, order, key);
      rest, order := rest - {key}, order + [key];
      if !Blank(key) {
        var clean := SortedCleanLoop(m[key], TrimSpace);
        if clean == [] {
          order := OrderComplete(m, order, rest);
          return [], order;
        }
        normalized, keys := normalized[TrimSpace(key) := clean], keys + [TrimSpace(key)];
      }
    }
    if keys == [] { return [], order; }
    SortKeepsNames(order);
    var walker := new Walker(Sort(keys), normalized);
    walker.Walk(0);
    assert walker.keys[0..] == Sort(keys);
    ExtendEmpty(Product(walker.keys, normalized));
    combos := walker.combos;
  }

  lemma ExtendEmpty(cs: seq<Vars>)
    ensures [] + Extend(map[], cs) == cs
  {
    assert forall i :: 0 <= i < |cs| ==> map[] + cs[i] == cs[i];
  }

  // ------------------------------------------- independence of the map order

  /** Every non-blank key has a non-blank value. */
  ghost predicate AllFilled(m: Matrix) {
    forall k :: k in m && !Blank(k) ==> CleanValues(m[k]) != []
  }

  /** Keys with the same trimmed name list the same values. */
  ghost predicate Agreeing(m: Matrix) {
    forall j, k :: j in m && k in m && !Blank(j) && TrimSpace(j) == TrimSpace(k) ==> CleanValues(m[j]) == CleanValues(m[k])
  }

  lemma {:induction false} NormalizedAt(m: Matrix, order: seq<string>, k: string)
    requires KeysWithin(m, order) && k in order && !Blank(k)
    requires order[|order| - 1] == k || Agreeing(m)
    ensures TrimSpace(k) in Normalized(m, order) && Normalized(m, order)[TrimSpace(k)] == CleanValues(m[k])
  {
    hide CleanValues;
    var front, last := order[..|order| - 1], order[|order| - 1];
    assert order == front + [last];
    if last != k && (Blank(last) || TrimSpace(last) != TrimSpace(k)) {
      NormalizedAt(m, front, k);
    }
  }

  /** How often a name occurs depends on the key set only. */
  ghost function NameCount(ks: set<string>, n: string): nat {
    |set k | k in ks && !Blank(k) && TrimSpace(k) == n|
  }

  lemma {:induction false} NamesCounted(order: seq<string>, n: string)
    requires NoDup(order)
    ensures multiset(Names(order))[n] == NameCount(Elems(order), n)
  {
    hide Blank;
    hide TrimSpace;
    hide NameCount;
    if order == [] { NameCountEmpty(n); }
    if order != [] {
      var front, k := order[..|order| - 1], order[|order| - 1];
      NamesCounted(front, n);
      assert order == front + [k] && k !in front;
      assert Elems(order) == Elems(front) + {k};
      NameCountStep(Elems(front), k, n);
    }
  }

  lemma NameCountEmpty(n: string)
    ensures NameCount(Elems<string>([]), n) == 0
  {
    assert (set k | k in Elems<string>([]) && !Blank(k) && TrimSpace(k) == n) == {};
  }

  lemma NameCountStep(ks: set<string>, k: string, n: string)
    requires k !in ks
    ensures NameCount(ks + {k}, n) == NameCount(ks, n) + (if !Blank(k) && TrimSpace(k) == n then 1 else 0)
  {
    hide Blank;
    hide TrimSpace;
    var a := set j | j in ks && !Blank(j) && TrimSpace(j) == n;
    var b := set j | j in ks + {k} && !Blank(j) && TrimSpace(j) == n;
    if !Blank(k) && TrimSpace(k) == n {
      assert b == a + {k};
    } else {
      assert b == a;
    }
  }

  lemma SameNames(m: Matrix, o: seq<string>, p: seq<string>)
    requires IsOrder(m, o) && IsOrder(m, p)
    ensures Sort(Names(o)) == Sort(Names(p)) && (Names(o) == [] <==> Names(p) == [])
  {
    hide Names;
    hide Sort;
    forall n ensures multiset(Names(o))[n] == multiset(Names(p))[n] {
      NamesCounted(o, n);
      NamesCounted(p, n);
    }
    assert multiset(Names(o)) == multiset(Names(p));
    SortSorted(Names(o));
    SortSorted(Names(p));
    SortedUnique(Sort(Names(o)), Sort(Names(p)));
    MultisetMember(Names(o), Names(p));
  }

  lemma SameNormalized(m: Matrix, o: seq<string>, p: seq<string>)
    requires IsOrder(m, o) && IsOrder(m, p) && KeysWithin(m, o) && KeysWithin(m, p) && Agreeing(m)
    ensures Normalized(m, o) == Normalized(m, p)
  {
    hide CleanValues;
    OrderKeys(m, o);
    OrderKeys(m, p);
    var a, b := Normalized(m, o), Normalized(m, p);
    forall n | n in a || n in b ensures n in a && n in b && a[n] == b[n] {
      var k :| k in m && !Blank(k) && TrimSpace(k) == n;
      NormalizedAt(m, o, k);
      NormalizedAt(m, p, k);
    }
  }

  lemma SameEmptiness(m: Matrix, order: seq<string>)
    requires IsOrder(m, order) && KeysWithin(m, order)
    ensures SomeKeyEmpty(m, order) <==> !AllFilled(m)
  {
    OrderKeys(m, order);
  }

  lemma AgreeingIsOrderFree(m: Matrix, o: seq<string>, p: seq<string>)
    requires IsOrder(m, o) && IsOrder(m, p) && KeysWithin(m, o) && KeysWithin(m, p) && Agreeing(m)
    ensures Combinations(m, o) == Combinations(m, p)
  {
    hide Names;
    hide Normalized;
    hide SomeKeyEmpty;
    SameNames(m, o, p);
    SameNormalized(m, o, p);
    SameEmptiness(m, o);
    SameEmptiness(m, p);
  }

  /** Each key takes exactly its values somewhere in the list, repeated keys or not. */
  lemma {:induction false} ProductValues(keys: seq<string>, m: Matrix, n: string, v: string)
    requires (forall k :: k in keys ==> k in m && m[k] != []) && n in keys
    ensures v in m[n] <==> exists c :: c in Product(keys, m) && n in c && c[n] == v
  {
    hide Branch;
    var k, later := keys[0], keys[1..];
    var rest := Product(later, m);
    assert keys == [k] + later;
    ProductKeys(later, m);
    if n in later {
      ProductValues(later, m, n, v);
      if v in m[n] {
        var r :| r in rest && n in r && r[n] == v;
        ProductPick(k, m[k][0], r, rest, keys, m);
      }
    } else if v in m[n] {
      ProductNonEmpty(later, m);
      assert n !in Elems(later);
      ProductPick(k, v, rest[0], rest, keys, m);
    }
    forall c | c in Product(keys, m) && n in c && c[n] == v ensures v in m[n] {
      BranchesMembers(k, m[k], rest, c);
      var w, r :| w in m[k] && r in rest && Branch(k, w, r, c);
      BranchAt(k, w, r, c, n);
    }
  }

  lemma BranchAt(k: string, v: string, r: Vars, c: Vars, n: string)
    requires Branch(k, v, r, c)
    ensures n in c <==> n == k || n in r
    ensures n in r ==> c[n] == r[n]
    ensures n == k && n !in r ==> c[n] == v
  {}

  lemma ProductPick(k: string, v: string, r: Vars, rest: seq<Vars>, keys: seq<string>, m: Matrix)
    requires (forall j :: j in keys ==> j in m) && keys != [] && keys[0] == k && rest == Product(keys[1..], m)
    requires v in m[k] && r in rest
    ensures map[k := v] + r in Product(keys, m)
  {
    assert Branch(k, v, r, map[k := v] + r);
    BranchesMembers(k, m[k], rest, map[k := v] + r);
  }

  /** The list is the same for all map orders exactly when some key has no values or same-named keys agree. */
  lemma OrderFreeIffAgreeing(m: Matrix)
    ensures !AllFilled(m) || Agreeing(m) <==>
      forall o, p :: IsOrder(m, o) && IsOrder(m, p) && KeysWithin(m, o) && KeysWithin(m, p) ==>
        Combinations(m, o) == Combinations(m, p)
  {
    hide Combinations;
    hide AllFilled;
    hide Agreeing;
    if !AllFilled(m) {
      forall o | IsOrder(m, o) && KeysWithin(m, o) ensures Combinations(m, o) == [] { UnfilledIsEmpty(m, o); }
    } else if Agreeing(m) {
      forall o, p | IsOrder(m, o) && IsOrder(m, p) && KeysWithin(m, o) && KeysWithin(m, p)
        ensures Combinations(m, o) == Combinations(m, p)
      {
        AgreeingIsOrderFree(m, o, p);
      }
    } else {
      DisagreeingOrders(m);
    }
  }

  lemma UnfilledIsEmpty(m: Matrix, order: seq<string>)
    requires !AllFilled(m) && IsOrder(m, order) && KeysWithin(m, order)
    ensures Combinations(m, order) == []
  {
    hide AllFilled;
    hide SomeKeyEmpty;
    SameEmptiness(m, order);
  }

  lemma DisagreeingOrders(m: Matrix)
    requires AllFilled(m) && !Agreeing(m)
    ensures exists o, p ::
      && IsOrder(m, o) && IsOrder(m, p) && KeysWithin(m, o) && KeysWithin(m, p)
      && Combinations(m, o) != Combinations(m, p)
  {
    hide Combinations;
    hide CleanValues;
    hide IsOrder;
    hide KeysWithin;
    hide AllFilled;
    var j, k :| j in m && k in m && !Blank(j) && TrimSpace(j) == TrimSpace(k) && CleanValues(m[j]) != CleanValues(m[k]);
    var o := LastOrder(m, j);
    var p := LastOrder(m, k);
    if Combinations(m, o) == Combinations(m, p) { SameValues(m, o, p, j, k); }
  }

  lemma SameValues(m: Matrix, o: seq<string>, p: seq<string>, j: string, k: string)
    requires AllFilled(m) && !Blank(j) && TrimSpace(j) == TrimSpace(k)
    requires IsOrder(m, o) && IsOrder(m, p) && KeysWithin(m, o) && KeysWithin(m, p)
    requires o != [] && o[|o| - 1] == j && p != [] && p[|p| - 1] == k
    requires Combinations(m, o) == Combinations(m, p)
    ensures CleanValues(m[j]) == CleanValues(m[k])
  {
    hide Combinations;
    hide CleanValues;
    forall v ensures v in CleanValues(m[j]) <==> v in CleanValues(m[k]) {
      CombinationValues(m, o, j, v);
      CombinationValues(m, p, k, v);
    }
    CleanValuesUnique(m[j], m[k]);
  }

  lemma LastOrder(m: Matrix, k: string) returns (order: seq<string>)
    requires k in m
    ensures IsOrder(m, order) && KeysWithin(m, order) && order != [] && order[|order| - 1] == k
  {
    var front := Listing(m.Keys - {k});
    assert k !in Elems(front);
    order := front + [k];
    assert Elems(order) == Elems(front) + {k};
    OrderKeys(m, order);
  }

  lemma CleanValuesUnique(xs: seq<string>, ys: seq<string>)
    requires forall v :: v in CleanValues(xs) <==> v in CleanValues(ys)
    ensures CleanValues(xs) == CleanValues(ys)
  {
    hide SortedClean;
    SortedCleanMeaning(xs, TrimSpace);
    SortedCleanMeaning(ys, TrimSpace);
    assert forall v :: v in Elems(CleanValues(xs)) <==> v in Elems(CleanValues(ys));
    AscendingUnique(CleanValues(xs), CleanValues(ys));
  }

  lemma CombinationValues(m: Matrix, order: seq<string>, k: string, v: string)
    requires AllFilled(m) && IsOrder(m, order) && KeysWithin(m, order) && order != [] && order[|order| - 1] == k && !Blank(k)
    ensures v in CleanValues(m[k]) <==>
      exists c :: c in Combinations(m, order) && TrimSpace(k) in c && c[TrimSpace(k)] == v
  {
    hide CleanValues;
    var n, names := TrimSpace(k), Names(order);
    SameEmptiness(m, order);
    assert k in order;
    assert n in names;
    SortKeepsNames(order);
    NormalizedAt(m, order, k);
    NormalizedFilled(m, order);
    ProductValues(Sort(names), Normalized(m, order), n, v);
  }

  lemma {:induction false} NormalizedFilled(m: Matrix, order: seq<string>)
    requires KeysWithin(m, order) && AllFilled(m)
    ensures forall n :: n in Normalized(m, order) ==> Normalized(m, order)[n] != []
  {
    if order != [] {
      assert order == order[..|order| - 1] + [order[|order| - 1]];
      NormalizedFilled(m, order[..|order| - 1]);
    }
  }

  // ----------------------------------------------------- the main statement

  ghost predicate DistinctNames(m: Matrix) {
    forall j, k :: j in m && k in m && !Blank(j) && TrimSpace(j) == TrimSpace(k) ==> j == k
  }

  lemma NoDupSnoc(xs: seq<string>, x: string)
    requires NoDup(xs) && x !in xs
    ensures NoDup(xs + [x])
  {}

  lemma NoDupFront(xs: seq<string>)
    requires NoDup(xs) && xs != []
    ensures NoDup(xs[..|xs| - 1]) && xs[|xs| - 1] !in xs[..|xs| - 1]
  {}

  lemma {:induction false} NamesNoDup(m: Matrix, order: seq<string>)
    requires DistinctNames(m) && KeysWithin(m, order) && NoDup(order)
    ensures NoDup(Names(order))
  {
    hide Blank;
    hide TrimSpace;
    hide NoDup;
    if order != [] {
      var front, k := order[..|order| - 1], order[|order| - 1];
      assert order == front + [k];
      NoDupFront(order);
      NamesNoDup(m, front);
      assert k in order;
      forall j | j in front && !Blank(j) ensures TrimSpace(j) != TrimSpace(k) { assert j in order; }
      NoDupSnoc(Names(front), TrimSpace(k));
    }
  }

  lemma {:induction false} NormalizedAscending(m: Matrix, order: seq<string>)
    requires KeysWithin(m, order)
    ensures forall n :: n in Normalized(m, order) ==> Ascending(Normalized(m, order)[n])
  {
    hide SortedClean;
    if order != [] {
      var front, k := order[..|order| - 1], order[|order| - 1];
      assert order == front + [k];
      NormalizedAscending(m, front);
      SortedCleanMeaning(m[k], TrimSpace);
    }
  }

  /**
   With distinct trimmed keys: if every key is filled and there is one at all, the list holds every total
   assignment exactly once, in lexicographic order of keys and values, and its length is the product of the cleaned
   value counts. Otherwise it is empty, so without keys there is not even the empty assignment.
   */
  lemma CombinationsMeaning(m: Matrix, order: seq<string>)
    requires IsOrder(m, order) && KeysWithin(m, order) && DistinctNames(m)
    ensures var keys, values, cs := Sort(Names(order)), Normalized(m, order), Combinations(m, order);
      && Ascending(keys) && (forall n :: n in keys <==> exists k :: k in m && !Blank(k) && TrimSpace(k) == n)
      && (forall k :: k in m && !Blank(k) ==> TrimSpace(k) in values && values[TrimSpace(k)] == CleanValues(m[k]))
      && (forall n :: n in keys ==> n in values)
      && if !AllFilled(m) || keys == [] then cs == []
         else (forall c :: c in cs <==> Total(keys, values, c)) && LexAscending(keys, cs) && NoDup(cs)
              && |cs| == CountAll(keys, values)
  {
    hide CleanValues;
    hide Names;
    hide Normalized;
    hide LexAscending;
    hide Sort;
    hide AllFilled;
    hide SomeKeyEmpty;
    var keys, values := Sort(Names(order)), Normalized(m, order);
    SameEmptiness(m, order);
    OrderKeys(m, order);
    SortKeepsNames(order);
    NamesNoDup(m, order);
    SortAscending(Names(order));
    AscendingSortId(keys);
    NormalizedAscending(m, order);
    forall k | k in m && !Blank(k) ensures TrimSpace(k) in values && values[TrimSpace(k)] == CleanValues(m[k]) {
      NormalizedAt(m, order, k);
    }
    forall c ensures c in Product(keys, values) <==> Total(keys, values, c) { ProductMembers(keys, values, c); }
    ProductAscending(keys, values);
    ProductCount(keys, values);
  }

  // ------------------------------------------------------- keys that share a name

  /** Two keys of the matrix have this name. */
  ghost predicate Shared(m: Matrix, n: string) {
    exists j, k :: j in m && k in m && j != k && !Blank(j) && TrimSpace(j) == n && TrimSpace(k) == n
  }

  /** Every name that several keys share ends up with exactly one value. */
  ghost predicate SharedSingle(m: Matrix, order: seq<string>)
    requires KeysWithin(m, order)
  {
    forall n :: Shared(m, n) && n in Normalized(m, order) ==> |Normalized(m, order)[n]| == 1
  }

  lemma SharedIsRepeated(m: Matrix, order: seq<string>, n: string)
    requires IsOrder(m, order)
    ensures Shared(m, n) <==> Repeated(Sort(Names(order)), n)
  {
    hide Names;
    hide Sort;
    hide TrimSpace;
    NamesCounted(order, n);
    var ks := set k | k in m.Keys && !Blank(k) && TrimSpace(k) == n;
    assert |ks| == multiset(Sort(Names(order)))[n];
    TwoMembers(ks);
    if Shared(m, n) {
      var j, k :| j in m && k in m && j != k && !Blank(j) && TrimSpace(j) == n && TrimSpace(k) == n;
      assert j in ks && k in ks;
    }
    if j, k :| j in ks && k in ks && j != k { assert j in m && k in m; }
  }

  lemma TwoMembers<T>(s: set<T>)
    ensures |s| >= 2 <==> exists j, k :: j in s && k in s && j != k
  {
    if |s| >= 2 {
      var j :| j in s;
      assert |s - {j}| >= 1;
      var k :| k in s - {j};
      assert j in s && k in s && j != k;
    }
    if j, k :| j in s && k in s && j != k {
      assert s == {j, k} + (s - {j, k});
      assert |s| == |{j, k}| + |s - {j, k}|;
    }
  }

  lemma SharedSingleIsSingleRepeats(m: Matrix, order: seq<string>)
    requires IsOrder(m, order) && KeysWithin(m, order)
    ensures SharedSingle(m, order) <==> SingleRepeats(Sort(Names(order)), Normalized(m, order))
  {
    hide Names;
    hide Normalized;
    hide Sort;
    hide Shared;
    hide Repeated;
    SortKeepsNames(order);
    forall n ensures Shared(m, n) <==> Repeated(Sort(Names(order)), n) { SharedIsRepeated(m, order, n); }
  }

  /** No assignment is listed twice exactly when some key has no values or shared names have one value each. */
  lemma NoRepetitionIff(m: Matrix, order: seq<string>)
    requires IsOrder(m, order) && KeysWithin(m, order)
    ensures NoDup(Combinations(m, order)) <==> !AllFilled(m) || SharedSingle(m, order)
  {
    hide Names;
    hide Normalized;
    hide Sort;
    hide AllFilled;
    hide SharedSingle;
    hide SomeKeyEmpty;
    hide SingleRepeats;
    SameEmptiness(m, order);
    SharedSingleIsSingleRepeats(m, order);
    if AllFilled(m) {
      SortKeepsNames(order);
      NormalizedAscending(m, order);
      NormalizedFilled(m, order);
      SortSorted(Names(order));
      ProductNoDupIff(Sort(Names(order)), Normalized(m, order));
      if Names(order) == [] { NoneSingle(m, order); }
    }
  }

  lemma NoneSingle(m: Matrix, order: seq<string>)
    requires KeysWithin(m, order) && Names(order) == []
    ensures SingleRepeats(Sort(Names(order)), Normalized(m, order))
  {}

  /** The same for every map order: all keys that share a name must list the single value they have. */
  lemma SharedSingleInEveryOrder(m: Matrix)
    requires AllFilled(m)
    ensures (forall order :: IsOrder(m, order) && KeysWithin(m, order) ==> SharedSingle(m, order)) <==>
      forall j :: j in m && !Blank(j) && Shared(m, TrimSpace(j)) ==> |CleanValues(m[j])| == 1
  {
    hide CleanValues;
    hide TrimSpace;
    hide Normalized;
    hide Names;
    hide Shared;
    if forall order :: IsOrder(m, order) && KeysWithin(m, order) ==> SharedSingle(m, order) {
      forall j | j in m && !Blank(j) && Shared(m, TrimSpace(j)) ensures |CleanValues(m[j])| == 1 {
        var order := LastOrder(m, j);
        NormalizedAt(m, order, j);
        assert SharedSingle(m, order);
      }
    }
    if forall j :: j in m && !Blank(j) && Shared(m, TrimSpace(j)) ==> |CleanValues(m[j])| == 1 {
      forall order | IsOrder(m, order) && KeysWithin(m, order) ensures SharedSingle(m, order) {
        forall n | Shared(m, n) && n in Normalized(m, order) ensures |Normalized(m, order)[n]| == 1 {
          var k := NormalizedFrom(m, order, n);
        }
      }
    }
  }

  /** Each name has the values of one of its keys. */
  lemma {:induction false} NormalizedFrom(m: Matrix, order: seq<string>, n: string) returns (k: string)
    requires KeysWithin(m, order) && n in Normalized(m, order)
    ensures k in m && !Blank(k) && TrimSpace(k) == n && Normalized(m, order)[n] == CleanValues(m[k])
  {
    hide CleanValues;
    var front, last := order[..|order| - 1], order[|order| - 1];
    assert order == front + [last];
    if !Blank(last) && TrimSpace(last) == n { k := last; } else { k := NormalizedFrom(m, front, n); }
  }
}
