/**
 Ordered override merging of configurations (internal/config/load.go, mergeConfig and its parts).
 Main results: merging computes exactly "first-appearance order, last-written value", and it is associative
 on all documents.
 */
module ConfigMerge {
  import opened Text
  import opened ConfigModel

  // -------------------------------------------------------- merging by key

  function Keys<T>(xs: seq<T>, key: T -> string): (ks: seq<string>)
    ensures |ks| == |xs| && forall i :: 0 <= i < |xs| ==> ks[i] == key(xs[i])
  {
    seq(|xs|, i requires 0 <= i < |xs| => key(xs[i]))
  }

  /** The last position holding `k`: where the index map built from left to right points. */
  function LastIndex(ks: seq<string>, k: string): (i: nat)
    requires k in ks
    ensures i < |ks| && ks[i] == k && k !in ks[i + 1..]
  {
    if ks[|ks| - 1] == k then |ks| - 1 else LastIndex(ks[..|ks| - 1], k)
  }

  function Upsert<T>(xs: seq<T>, x: T, key: T -> string): seq<T> {
    var ks := Keys(xs, key);
    if key(x) in ks then xs[LastIndex(ks, key(x)) := x] else xs + [x]
  }

  function Merge<T>(dst: seq<T>, src: seq<T>, key: T -> string): seq<T> {
    if src == [] then dst
    else Upsert(Merge(dst, src[..|src| - 1], key), src[|src| - 1], key)
  }

  /** The index map agrees with the list: it knows each key and its last position. */
  ghost predicate Indexed(index: map<string, nat>, ks: seq<string>) {
    && index.Keys == Elems(ks)
    && forall k :: k in ks ==> index[k] == LastIndex(ks, k)
  }

  lemma IndexedSnoc(index: map<string, nat>, ks: seq<string>, k: string)
    requires Indexed(index, ks)
    ensures Indexed(index[k := |ks|], ks + [k])
  {
    forall j | j in ks + [k] ensures index[k := |ks|][j] == LastIndex(ks + [k], j) {
      if j == k {
        LastIndexUnique(ks + [k], k, |ks|);
      } else {
        LastIndexUnique(ks + [k], j, LastIndex(ks, j));
      }
    }
  }

  method BuildIndex(ks: seq<string>) returns (index: map<string, nat>)
    ensures Indexed(index, ks)
  {
    index := map[];
    for i := 0 to |ks|
      invariant Indexed(index, ks[..i])
    {
      IndexedSnoc(index, ks[..i], ks[i]);
      assert ks[..i + 1] == ks[..i] + [ks[i]];
      index := index[ks[i] := i];
    }
    assert ks[..|ks|] == ks;
  }

  /** The merge loop, with the index map it keeps beside the list it extends. */
  method MergeInto<T>(dst: seq<T>, src: seq<T>, key: T -> string) returns (out: seq<T>)
    ensures out == Merge(dst, src, key)
  {
    out := dst;
    var index: map<string, nat> := BuildIndex(Keys(dst, key));
    for j := 0 to |src|
      invariant out == Merge(dst, src[..j], key)
      invariant Indexed(index, Keys(out, key))
    {
      var x := src[j];
      MergeSnoc(dst, src[..j], x, key);
      assert src[..j + 1] == src[..j] + [x];
      if key(x) in index {
        UpdateKeys(out, index[key(x)], x, key);
        out := out[index[key(x)] := x];
      } else {
        KeysAppend(out, x, key);
        IndexedSnoc(index, Keys(out, key), key(x));
        index := index[key(x) := |out|];
        out := out + [x];
      }
    }
    assert src[..|src|] == src;
  }

  lemma MergeSnoc<T>(dst: seq<T>, src: seq<T>, x: T, key: T -> string)
    ensures Merge(dst, src + [x], key) == Upsert(Merge(dst, src, key), x, key)
  {
    assert (src + [x])[..|src|] == src;
  }

  lemma UpdateKeys<T>(xs: seq<T>, i: nat, x: T, key: T -> string)
    requires i < |xs| && key(xs[i]) == key(x)
    ensures Keys(xs[i := x], key) == Keys(xs, key)
  {}

  // ------------------------------------------- what merging is meant to give

  /** Each key once, in the order of first appearance. */
  function Dedup(ks: seq<string>): (r: seq<string>)
    ensures forall k :: k in r <==> k in ks
  {
    if ks == [] then []
    else
      var d, k := Dedup(ks[..|ks| - 1]), ks[|ks| - 1];
      if k in d then d else d + [k]
  }

  lemma {:induction false} DedupNoDup(ks: seq<string>)
    ensures NoDup(Dedup(ks))
  {
    if ks != [] { DedupNoDup(ks[..|ks| - 1]); }
  }

  function LastWith<T>(xs: seq<T>, k: string, key: T -> string): (x: T)
    requires k in Keys(xs, key)
    ensures key(x) == k
  {
    xs[LastIndex(Keys(xs, key), k)]
  }

  /** First-appearance order, last-written value. */
  function Canon<T>(xs: seq<T>, key: T -> string): (r: seq<T>)
    ensures Keys(r, key) == Dedup(Keys(xs, key))
  {
    var ks := Keys(xs, key);
    var d := Dedup(ks);
    seq(|d|, i requires 0 <= i < |d| => assert d[i] in ks; LastWith(xs, d[i], key))
  }

  ghost predicate UniqueKeys<T>(xs: seq<T>, key: T -> string) {
    NoDup(Keys(xs, key))
  }

  lemma {:induction false} DedupId(ks: seq<string>)
    requires NoDup(ks)
    ensures Dedup(ks) == ks
  {
    if ks != [] {
      var front := ks[..|ks| - 1];
      DedupId(front);
      assert ks == front + [ks[|ks| - 1]];
      assert ks[|ks| - 1] !in front;
    }
  }

  lemma KeysAppend<T>(xs: seq<T>, x: T, key: T -> string)
    ensures Keys(xs + [x], key) == Keys(xs, key) + [key(x)]
  {}

  /** Lists with the same distinct keys in the same order and the same value per key are equal. */
  lemma SameByKey<T>(a: seq<T>, b: seq<T>, key: T -> string)
    requires Keys(a, key) == Keys(b, key) && UniqueKeys(a, key)
    requires forall k :: k in Keys(a, key) ==> LastWith(a, k, key) == LastWith(b, k, key)
    ensures a == b
  {
    forall i | 0 <= i < |a| ensures a[i] == b[i] {
      var ks := Keys(a, key);
      UniqueAt(ks, i);
      assert LastWith(a, ks[i], key) == LastWith(b, ks[i], key);
    }
  }

  lemma UniqueAt(ks: seq<string>, i: nat)
    requires i < |ks| && NoDup(ks)
    ensures LastIndex(ks, ks[i]) == i
  {}

  lemma CanonLast<T>(xs: seq<T>, k: string, key: T -> string)
    requires k in Keys(xs, key)
    ensures k in Keys(Canon(xs, key), key) && LastWith(Canon(xs, key), k, key) == LastWith(xs, k, key)
  {
    var d := Dedup(Keys(xs, key));
    DedupNoDup(Keys(xs, key));
    var i :| 0 <= i < |d| && d[i] == k;
    UniqueAt(d, i);
  }

  lemma CanonId<T>(xs: seq<T>, key: T -> string)
    requires UniqueKeys(xs, key)
    ensures Canon(xs, key) == xs
  {
    DedupId(Keys(xs, key));
    forall k | k in Keys(xs, key) ensures LastWith(Canon(xs, key), k, key) == LastWith(xs, k, key) {
      CanonLast(xs, k, key);
    }
    SameByKey(Canon(xs, key), xs, key);
  }

  lemma LastWithAppend<T>(a: seq<T>, b: seq<T>, k: string, key: T -> string)
    requires k in Keys(a + b, key)
    ensures k in Keys(a, key) || k in Keys(b, key)
    ensures LastWith(a + b, k, key) == if k in Keys(b, key) then LastWith(b, k, key) else LastWith(a, k, key)
  {
    var ka, kb, kab := Keys(a, key), Keys(b, key), Keys(a + b, key);
    assert kab == ka + kb;
    var i := LastIndex(kab, k);
    if k in kb {
      var j := LastIndex(kb, k);
      LastIndexUnique(kab, k, |ka| + j);
    } else {
      var j := LastIndex(ka, k);
      LastIndexUnique(kab, k, j);
    }
  }

  lemma LastIndexUnique(ks: seq<string>, k: string, i: nat)
    requires i < |ks| && ks[i] == k && forall j :: i < j < |ks| ==> ks[j] != k
    ensures LastIndex(ks, k) == i
  {
    var j := LastIndex(ks, k);
    assert forall n :: j < n < |ks| ==> ks[n] == ks[j + 1..][n - j - 1];
  }

  /** Writing one more entry into a merged list is the same as appending it to the unmerged one. */
  lemma UpsertCanon<T>(xs: seq<T>, x: T, key: T -> string)
    ensures Upsert(Canon(xs, key), x, key) == Canon(xs + [x], key)
  {
    var c, k, d := Canon(xs, key), key(x), Dedup(Keys(xs, key));
    var u, v := Upsert(c, x, key), Canon(xs + [x], key);
    KeysAppend(xs, x, key);
    assert (Keys(xs, key) + [k])[..|xs|] == Keys(xs, key);
    assert Keys(v, key) == if k in d then d else d + [k];
    if k in d {
      UpdateKeys(c, LastIndex(d, k), x, key);
    } else {
      KeysAppend(c, x, key);
    }
    assert Keys(u, key) == Keys(v, key);
    forall j | j in Keys(u, key) ensures LastWith(u, j, key) == LastWith(v, j, key) {
      CanonLast(xs + [x], j, key);
      LastWithAppend(xs, [x], j, key);
      if j != k {
        CanonLast(xs, j, key);
        if k !in d { LastWithAppend(c, [x], j, key); }
      } else if k !in d {
        LastWithAppend(c, [x], j, key);
      }
    }
    DedupNoDup(Keys(xs + [x], key));
    SameByKey(u, v, key);
  }

  /** Merging into a merged list gives the canonical form of everything written so far. */
  lemma {:induction false} MergeCanon<T>(a: seq<T>, b: seq<T>, key: T -> string)
    ensures Merge(Canon(a, key), b, key) == Canon(a + b, key)
  {
    if b == [] {
      assert a + b == a;
    } else {
      var front, x := b[..|b| - 1], b[|b| - 1];
      MergeCanon(a, front, key);
      UpsertCanon(a + front, x, key);
      assert a + b == a + front + [x];
    }
  }

  /** First-appearance order and last-written value, for any source list. */
  lemma MergeMeaning<T>(dst: seq<T>, src: seq<T>, key: T -> string)
    requires UniqueKeys(dst, key)
    ensures Merge(dst, src, key) == Canon(dst + src, key)
    ensures UniqueKeys(Merge(dst, src, key), key)
  {
    CanonId(dst, key);
    MergeCanon(dst, src, key);
    DedupNoDup(Keys(dst + src, key));
  }

  // ------------------------------------------------------------ associativity

  lemma UpsertKeys<T>(xs: seq<T>, x: T, key: T -> string)
    ensures Keys(Upsert(xs, x, key), key) == if key(x) in Keys(xs, key) then Keys(xs, key) else Keys(xs, key) + [key(x)]
  {
    if key(x) in Keys(xs, key) {
      UpdateKeys(xs, LastIndex(Keys(xs, key), key(x)), x, key);
    } else {
      KeysAppend(xs, x, key);
    }
  }

  /** Writing the same key twice is writing the second value. */
  lemma UpsertTwice<T>(xs: seq<T>, y: T, x: T, key: T -> string)
    requires key(y) == key(x)
    ensures Upsert(Upsert(xs, y, key), x, key) == Upsert(xs, x, key)
  {
    UpsertKeys(xs, y, key);
    if key(x) !in Keys(xs, key) { LastIndexUnique(Keys(xs, key) + [key(x)], key(x), |xs|); }
  }

  /** Writes to different keys commute once the one that moves is there already. */
  lemma UpsertSwap<T>(xs: seq<T>, z: T, x: T, key: T -> string)
    requires key(z) != key(x) && key(x) in Keys(xs, key)
    ensures Upsert(Upsert(xs, z, key), x, key) == Upsert(Upsert(xs, x, key), z, key)
  {
    hide Keys;
    hide LastIndex;
    var ks := Keys(xs, key);
    var i := LastIndex(ks, key(x));
    UpsertKeys(xs, z, key);
    UpsertKeys(xs, x, key);
    if key(z) in ks {
      assert xs[LastIndex(ks, key(z)) := z][i := x] == xs[i := x][LastIndex(ks, key(z)) := z];
    } else {
      LastIndexUnique(ks + [key(z)], key(x), i);
      assert (xs + [z])[i := x] == xs[i := x] + [z];
    }
  }

  lemma {:induction false} MergeHasKey<T>(xs: seq<T>, ys: seq<T>, k: string, key: T -> string)
    requires k in Keys(xs, key)
    ensures k in Keys(Merge(xs, ys, key), key)
  {
    if ys != [] {
      MergeHasKey(xs, ys[..|ys| - 1], k, key);
      UpsertKeys(Merge(xs, ys[..|ys| - 1], key), ys[|ys| - 1], key);
    }
  }

  /** A write to a key that is there, and that the merged list does not touch, can come after the merge. */
  lemma {:induction false} UpsertAfterMerge<T>(xs: seq<T>, ys: seq<T>, x: T, key: T -> string)
    requires key(x) in Keys(xs, key) && key(x) !in Keys(ys, key)
    ensures Upsert(Merge(xs, ys, key), x, key) == Merge(Upsert(xs, x, key), ys, key)
  {
    hide Upsert;
    if ys != [] {
      var front, z := ys[..|ys| - 1], ys[|ys| - 1];
      assert ys == front + [z];
      KeysAppend(front, z, key);
      UpsertAfterMerge(xs, front, x, key);
      MergeHasKey(xs, front, key(x), key);
      UpsertSwap(Merge(xs, front, key), z, x, key);
    }
  }

  lemma {:induction false} MergeConcat<T>(xs: seq<T>, ys: seq<T>, zs: seq<T>, key: T -> string)
    ensures Merge(xs, ys + zs, key) == Merge(Merge(xs, ys, key), zs, key)
  {
    hide Upsert;
    if zs == [] {
      assert ys + zs == ys;
    } else {
      var front, z := zs[..|zs| - 1], zs[|zs| - 1];
      assert ys + zs == (ys + front) + [z] && zs == front + [z];
      MergeConcat(xs, ys, front, key);
      MergeSnoc(xs, ys + front, z, key);
    }
  }

  /** Merging a list with one more write is merging the list and then writing. */
  lemma MergeUpsert<T>(xs: seq<T>, ys: seq<T>, x: T, key: T -> string)
    ensures Merge(xs, Upsert(ys, x, key), key) == Upsert(Merge(xs, ys, key), x, key)
  {
    hide Merge;
    var ks := Keys(ys, key);
    if key(x) !in ks {
      MergeSnoc(xs, ys, x, key);
    } else {
      var i := LastIndex(ks, key(x));
      var p, y, q := ys[..i], ys[i], ys[i + 1..];
      assert ys == (p + [y]) + q && ys[i := x] == (p + [x]) + q;
      assert Keys(q, key) == ks[i + 1..];
      MergeConcat(xs, p + [y], q, key);
      MergeConcat(xs, p + [x], q, key);
      MergeSnoc(xs, p, y, key);
      MergeSnoc(xs, p, x, key);
      var m := Merge(xs, p, key);
      UpsertKeys(m, y, key);
      UpsertAfterMerge(Upsert(m, y, key), q, x, key);
      UpsertTwice(m, y, x, key);
    }
  }

  /** Merging lists is associative, whether or not they repeat keys. */
  lemma {:induction false} MergeAssociative<T>(a: seq<T>, b: seq<T>, c: seq<T>, key: T -> string)
    ensures Merge(Merge(a, b, key), c, key) == Merge(a, Merge(b, c, key), key)
  {
    hide Upsert;
    if c != [] {
      var front, x := c[..|c| - 1], c[|c| - 1];
      MergeAssociative(a, b, front, key);
      MergeUpsert(a, Merge(b, front, key), x, key);
    }
  }

  // ------------------------------------------------------- whole documents

  /** A later non-blank text wins. */
  function PickText(had: string, got: string): string {
    if Blank(got) then had else got
  }

  function PickNumber(had: int, got: int): int {
    if got == 0 then had else got
  }

  function MergeExecution(d: Execution, s: Execution): Execution {
    Execution(PickText(d.strategy, s.strategy), PickNumber(d.serial, s.serial),
              PickText(d.failureDomain, s.failureDomain),
              PickNumber(d.maxFailPercentage, s.maxFailPercentage), d.anyErrorsFatal || s.anyErrorsFatal)
  }

  function MergeConfig(d: Config, s: Config): Config {
    Config(PickText(d.version, s.version), Merge(d.hosts, s.hosts, HostName),
           MergeExecution(d.execution, s.execution),
           Merge(d.resources, s.resources, ResourceId), Merge(d.handlers, s.handlers, ResourceId))
  }

  method MergeConfigInto(dst: Config, src: Config) returns (out: Config)
    ensures out == MergeConfig(dst, src)
  {
    var version := dst.version;
    if TrimSpace(src.version) != "" { version := src.version; }
    var hosts := MergeInto(dst.hosts, src.hosts, HostName);
    var e := dst.execution;
    if TrimSpace(src.execution.strategy) != "" { e := e.(strategy := src.execution.strategy); }
    if src.execution.serial != 0 { e := e.(serial := src.execution.serial); }
    if TrimSpace(src.execution.failureDomain) != "" { e := e.(failureDomain := src.execution.failureDomain); }
    if src.execution.maxFailPercentage != 0 { e := e.(maxFailPercentage := src.execution.maxFailPercentage); }
    if src.execution.anyErrorsFatal { e := e.(anyErrorsFatal := true); }
    var resources := MergeInto(dst.resources, src.resources, ResourceId);
    var handlers := MergeInto(dst.handlers, src.handlers, ResourceId);
    out := Config(version, hosts, e, resources, handlers);
  }

  /** Host names, resource ids and handler ids are each unique. */
  ghost predicate WellKeyed(c: Config) {
    UniqueKeys(c.hosts, HostName) && UniqueKeys(c.resources, ResourceId) && UniqueKeys(c.handlers, ResourceId)
  }

  lemma MergeConfigWellKeyed(a: Config, b: Config)
    requires WellKeyed(a)
    ensures WellKeyed(MergeConfig(a, b))
  {
    MergeMeaning(a.hosts, b.hosts, HostName);
    MergeMeaning(a.resources, b.resources, ResourceId);
    MergeMeaning(a.handlers, b.handlers, ResourceId);
  }

  /** Merging documents is associative, raw ones with repeated names included. */
  lemma MergeConfigAssociative(a: Config, b: Config, c: Config)
    ensures MergeConfig(MergeConfig(a, b), c) == MergeConfig(a, MergeConfig(b, c))
  {
    MergeAssociative(a.hosts, b.hosts, c.hosts, HostName);
    MergeAssociative(a.resources, b.resources, c.resources, ResourceId);
    MergeAssociative(a.handlers, b.handlers, c.handlers, ResourceId);
  }

  function Fold<T>(op: (T, T) -> T, e: T, xs: seq<T>): T {
    if xs == [] then e else op(Fold(op, e, xs[..|xs| - 1]), xs[|xs| - 1])
  }

  lemma FoldSnoc<T>(op: (T, T) -> T, e: T, xs: seq<T>, x: T)
    ensures Fold(op, e, xs + [x]) == op(Fold(op, e, xs), x)
  {
    assert (xs + [x])[..|xs|] == xs;
  }

  /** What makes folding split at any point. */
  ghost predicate Foldable<T(!new)>(op: (T, T) -> T, e: T) {
    && (forall a :: op(a, e) == a)
    && (forall a, b, c :: op(op(a, b), c) == op(a, op(b, c)))
  }

  lemma {:induction false} FoldAppend<T(!new)>(op: (T, T) -> T, e: T, xs: seq<T>, ys: seq<T>)
    requires Foldable(op, e)
    ensures Fold(op, e, xs + ys) == op(Fold(op, e, xs), Fold(op, e, ys))
    decreases |ys|
  {
    if ys == [] {
      assert xs + ys == xs;
    } else {
      var front, y := ys[..|ys| - 1], ys[|ys| - 1];
      FoldAppend(op, e, xs, front);
      assert xs + ys == (xs + front) + [y];
      FoldSnoc(op, e, xs + front, y);
    }
  }

  /** One left-to-right merge over a list of documents. */
  function MergeAll(cs: seq<Config>): Config {
    Fold(MergeConfig, EMPTY_CONFIG, cs)
  }

  lemma MergeConfigFoldable()
    ensures Foldable(MergeConfig, EMPTY_CONFIG)
  {
    hide MergeConfig;
    forall a ensures MergeConfig(a, EMPTY_CONFIG) == a { MergeConfigEmpty(a); }
    forall a, b, c ensures MergeConfig(MergeConfig(a, b), c) == MergeConfig(a, MergeConfig(b, c)) {
      MergeConfigAssociative(a, b, c);
    }
  }

  lemma MergeConfigEmpty(a: Config)
    ensures MergeConfig(a, EMPTY_CONFIG) == a
  {}

  lemma {:induction false} MergeAllWellKeyed(cs: seq<Config>)
    ensures WellKeyed(MergeAll(cs))
  {
    hide MergeConfig;
    if cs != [] {
      MergeAllWellKeyed(cs[..|cs| - 1]);
      MergeConfigWellKeyed(MergeAll(cs[..|cs| - 1]), cs[|cs| - 1]);
    }
  }

  /** Merging two composed parts is merging the concatenation of their lists. */
  lemma MergeAllAppend(xs: seq<Config>, ys: seq<Config>)
    ensures MergeAll(xs + ys) == MergeConfig(MergeAll(xs), MergeAll(ys))
  {
    MergeConfigFoldable();
    FoldAppend(MergeConfig, EMPTY_CONFIG, xs, ys);
  }

  lemma MergeAllSnoc(xs: seq<Config>, x: Config)
    ensures MergeAll(xs + [x]) == MergeConfig(MergeAll(xs), x)
  {
    FoldSnoc(MergeConfig, EMPTY_CONFIG, xs, x);
  }

  /** All entries of one section, file after file. */
  function Section<T>(cs: seq<Config>, get: Config -> seq<T>): seq<T> {
    if cs == [] then [] else Section(cs[..|cs| - 1], get) + get(cs[|cs| - 1])
  }

  function Hosts(c: Config): seq<Host> { c.hosts }
  function Resources(c: Config): seq<Resource> { c.resources }
  function Handlers(c: Config): seq<Resource> { c.handlers }

  /** Every section of a merged list: first-appearance order, last-written value. */
  lemma {:induction false} MergeAllMeaning(cs: seq<Config>)
    ensures MergeAll(cs).hosts == Canon(Section(cs, Hosts), HostName)
    ensures MergeAll(cs).resources == Canon(Section(cs, Resources), ResourceId)
    ensures MergeAll(cs).handlers == Canon(Section(cs, Handlers), ResourceId)
  {
    if cs != [] {
      var front, c := cs[..|cs| - 1], cs[|cs| - 1];
      MergeAllMeaning(front);
      MergeCanon(Section(front, Hosts), c.hosts, HostName);
      MergeCanon(Section(front, Resources), c.resources, ResourceId);
      MergeCanon(Section(front, Handlers), c.handlers, ResourceId);
    }
  }

  /** `v` is the last non-blank text in the list, or empty when there is none. */
  ghost predicate LastNonBlank(xs: seq<string>, v: string) {
    if forall i :: 0 <= i < |xs| ==> Blank(xs[i]) then v == ""
    else exists i :: 0 <= i < |xs| && xs[i] == v && !Blank(v) && forall j :: i < j < |xs| ==> Blank(xs[j])
  }

  ghost predicate LastNonZero(xs: seq<int>, v: int) {
    if forall i :: 0 <= i < |xs| ==> xs[i] == 0 then v == 0
    else exists i :: 0 <= i < |xs| && xs[i] == v && v != 0 && forall j :: i < j < |xs| ==> xs[j] == 0
  }

  function Texts(cs: seq<Config>, get: Config -> string): (r: seq<string>)
    ensures |r| == |cs| && forall i :: 0 <= i < |cs| ==> r[i] == get(cs[i])
  {
    seq(|cs|, i requires 0 <= i < |cs| => get(cs[i]))
  }

  function Numbers(cs: seq<Config>, get: Config -> int): (r: seq<int>)
    ensures |r| == |cs| && forall i :: 0 <= i < |cs| ==> r[i] == get(cs[i])
  {
    seq(|cs|, i requires 0 <= i < |cs| => get(cs[i]))
  }

  lemma LastNonBlankSnoc(xs: seq<string>, v: string, x: string)
    requires LastNonBlank(xs, v)
    ensures LastNonBlank(xs + [x], PickText(v, x))
  {
    hide TrimSpace;
    var ys := xs + [x];
    assert ys[|xs|] == x;
    assert forall i :: 0 <= i < |xs| ==> ys[i] == xs[i];
    if Blank(x) && !(forall i :: 0 <= i < |xs| ==> Blank(xs[i])) {
      var i :| 0 <= i < |xs| && xs[i] == v && !Blank(v) && forall j :: i < j < |xs| ==> Blank(xs[j]);
      assert ys[i] == v && forall j :: i < j < |ys| ==> Blank(ys[j]);
    }
  }

  lemma LastNonZeroSnoc(xs: seq<int>, v: int, x: int)
    requires LastNonZero(xs, v)
    ensures LastNonZero(xs + [x], PickNumber(v, x))
  {
    var ys := xs + [x];
    assert ys[|xs|] == x;
    assert forall i :: 0 <= i < |xs| ==> ys[i] == xs[i];
    if x == 0 && !(forall i :: 0 <= i < |xs| ==> xs[i] == 0) {
      var i :| 0 <= i < |xs| && xs[i] == v && v != 0 && forall j :: i < j < |xs| ==> xs[j] == 0;
      assert ys[i] == v && forall j :: i < j < |ys| ==> ys[j] == 0;
    }
  }

  function Version(c: Config): string { c.version }
  function Strategy(c: Config): string { c.execution.strategy }
  function FailureDomain(c: Config): string { c.execution.failureDomain }
  function Serial(c: Config): int { c.execution.serial }
  function MaxFail(c: Config): int { c.execution.maxFailPercentage }

  /** Every scalar of a merged list: the last file that sets it wins; a fatal flag sticks. */
  lemma {:induction false} MergeAllScalars(cs: seq<Config>)
    ensures LastNonBlank(Texts(cs, Version), MergeAll(cs).version)
    ensures LastNonBlank(Texts(cs, Strategy), MergeAll(cs).execution.strategy)
    ensures LastNonBlank(Texts(cs, FailureDomain), MergeAll(cs).execution.failureDomain)
    ensures LastNonZero(Numbers(cs, Serial), MergeAll(cs).execution.serial)
    ensures LastNonZero(Numbers(cs, MaxFail), MergeAll(cs).execution.maxFailPercentage)
    ensures MergeAll(cs).execution.anyErrorsFatal <==> exists c :: c in cs && c.execution.anyErrorsFatal
  {
    if cs != [] {
      var front, c := cs[..|cs| - 1], cs[|cs| - 1];
      assert cs == front + [c];
      MergeAllScalars(front);
      var m := MergeAll(front);
      TextsSnoc(front, c, Version);
      TextsSnoc(front, c, Strategy);
      TextsSnoc(front, c, FailureDomain);
      NumbersSnoc(front, c, Serial);
      NumbersSnoc(front, c, MaxFail);
      LastNonBlankSnoc(Texts(front, Version), m.version, c.version);
      LastNonBlankSnoc(Texts(front, Strategy), m.execution.strategy, c.execution.strategy);
      LastNonBlankSnoc(Texts(front, FailureDomain), m.execution.failureDomain, c.execution.failureDomain);
      LastNonZeroSnoc(Numbers(front, Serial), m.execution.serial, c.execution.serial);
      LastNonZeroSnoc(Numbers(front, MaxFail), m.execution.maxFailPercentage, c.execution.maxFailPercentage);
    }
  }

  lemma TextsSnoc(cs: seq<Config>, c: Config, get: Config -> string)
    ensures Texts(cs + [c], get) == Texts(cs, get) + [get(c)]
  {}

  lemma NumbersSnoc(cs: seq<Config>, c: Config, get: Config -> int)
    ensures Numbers(cs + [c], get) == Numbers(cs, get) + [get(c)]
  {}
}
