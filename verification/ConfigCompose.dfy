/**
 Recursive composition of configuration files with cycle detection (internal/config/load.go).
 Main results: composition succeeds exactly when everything reachable exists and no cycle is
 reachable, a failure names a file to blame, and a successful composition is one left-to-right merge over the
 flattened files.
 */
module ConfigCompose {
  import opened Wrappers
  import opened Text
  import opened ConfigModel
  import opened ConfigMerge

  /**
   The readable files by absolute path, and how a reference found in a file resolves to a path.
   A path outside `files` is one that cannot be read or parsed.
   */
  datatype FileSystem = FileSystem(files: map<string, RawConfig>, resolve: (string, string) -> string)

  datatype LoadError = Cycle(path: string) | Unreadable(path: string)

  type Loaded = Result<Config, LoadError>

  ghost function Remaining(fs: FileSystem, stack: set<string>): set<string> {
    fs.files.Keys - stack
  }

  /** Composition of one file while the files in `stack` are being composed. */
  ghost function Compose(fs: FileSystem, path: string, stack: set<string>): Loaded
    decreases Remaining(fs, stack), 0
  {
    if path in stack then Err(Cycle(path))
    else if path !in fs.files then Err(Unreadable(path))
    else
      var raw := fs.files[path];
      var inner := stack + {path};
      assert path in Remaining(fs, stack) && Remaining(fs, inner) == Remaining(fs, stack) - {path};
      match ComposeRefs(fs, path, raw.includes, inner, EMPTY_CONFIG)
      case Err(e) => Err(e)
      case Ok(a) =>
        match ComposeRefs(fs, path, raw.imports, inner, a)
        case Err(e) => Err(e)
        case Ok(b) => ComposeRefs(fs, path, raw.overlays, inner, MergeConfig(b, raw.body))
  }

  ghost function ComposeRefs(fs: FileSystem, base: string, refs: seq<string>, stack: set<string>, acc: Config): Loaded
    decreases Remaining(fs, stack), |refs| + 1
  {
    if refs == [] then Ok(acc)
    else
      match Compose(fs, fs.resolve(base, refs[0]), stack)
      case Err(e) => Err(e)
      case Ok(child) => ComposeRefs(fs, base, refs[1..], stack, MergeConfig(acc, child))
  }

  /** The loader, with the stack of open files that the recursion shares. */
  class Loader {
    const fs: FileSystem
    var stack: set<string>

    constructor (fs: FileSystem)
      ensures this.fs == fs && stack == {}
    {
      this.fs := fs;
      stack := {};
    }

    /** Composes one file; the stack is back to what it was on every way out. */
    method LoadComposed(path: string) returns (r: Loaded)
      modifies this
      ensures stack == old(stack)
      ensures r == Compose(fs, path, old(stack))
      decreases Remaining(fs, stack), 0
    {
      if path in stack { return Err(Cycle(path)); }
      ghost var outer := stack;
      stack := stack + {path};
      assert path in fs.files ==> path in Remaining(fs, outer) && Remaining(fs, stack) < Remaining(fs, outer);
      if path !in fs.files {
        r := Err(Unreadable(path));
      } else {
        var raw := fs.files[path];
        r := LoadRefs(path, raw.includes, EMPTY_CONFIG);
        if r.Ok? {
          r := LoadRefs(path, raw.imports, r.value);
          if r.Ok? {
            var merged := MergeConfigInto(r.value, raw.body);
            r := LoadRefs(path, raw.overlays, merged);
          }
        }
      }
      stack := stack - {path};
      assert stack == outer;
    }

    /** One of the three loops over references, merging each child into what is there. */
    method LoadRefs(base: string, refs: seq<string>, start: Config) returns (r: Loaded)
      modifies this
      ensures stack == old(stack)
      ensures r == ComposeRefs(fs, base, refs, old(stack), start)
      decreases Remaining(fs, stack), |refs| + 1
    {
      var merged := start;
      for i := 0 to |refs|
        invariant stack == old(stack)
        invariant ComposeRefs(fs, base, refs[i..], stack, merged) == ComposeRefs(fs, base, refs, stack, start)
      {
        assert refs[i..][1..] == refs[i + 1..];
        var child := LoadComposed(fs.resolve(base, refs[i]));
        if child.Err? { return Err(child.error); }
        merged := MergeConfigInto(merged, child.value);
      }
      r := Ok(merged);
    }
  }

  // ------------------------------------------------------- when it succeeds

  ghost predicate RefersTo(fs: FileSystem, a: string, b: string) {
    a in fs.files &&
    var raw := fs.files[a];
    exists ref :: ref in raw.includes + raw.imports + raw.overlays && fs.resolve(a, ref) == b
  }

  /** A chain of references, as the list of files it passes through. */
  ghost predicate Walk(fs: FileSystem, w: seq<string>) {
    w != [] && forall i :: 0 <= i < |w| - 1 ==> RefersTo(fs, w[i], w[i + 1])
  }

  ghost predicate WalkBetween(fs: FileSystem, w: seq<string>, a: string, b: string) {
    Walk(fs, w) && w[0] == a && w[|w| - 1] == b
  }

  ghost predicate Reachable(fs: FileSystem, a: string, b: string) {
    exists w :: WalkBetween(fs, w, a, b)
  }

  /** Some chain of one or more references leads from the file back to itself. */
  ghost predicate OnCycle(fs: FileSystem, a: string) {
    exists w :: WalkBetween(fs, w, a, a) && |w| > 1
  }

  /** The walk stays inside the readable files, off the stack, and never visits a file twice. */
  ghost predicate GoodWalk(fs: FileSystem, w: seq<string>, stack: set<string>) {
    NoDup(w) && forall x :: x in w ==> x in fs.files && x !in stack
  }

  ghost predicate AllWalksGood(fs: FileSystem, path: string, stack: set<string>) {
    forall w :: Walk(fs, w) && w[0] == path ==> GoodWalk(fs, w, stack)
  }

  lemma WalkCons(fs: FileSystem, a: string, w: seq<string>)
    requires Walk(fs, w) && RefersTo(fs, a, w[0])
    ensures Walk(fs, [a] + w)
  {}

  lemma GoodCons(fs: FileSystem, a: string, w: seq<string>, stack: set<string>)
    ensures GoodWalk(fs, [a] + w, stack) <==> a in fs.files && a !in stack && GoodWalk(fs, w, stack + {a})
  {
    var v := [a] + w;
    assert forall x :: x in v <==> x == a || x in w;
    assert forall i :: 0 <= i < |w| ==> w[i] == v[i + 1];
    if GoodWalk(fs, v, stack) {
      forall x | x in w ensures x != a {
        var i :| 0 <= i < |w| && w[i] == x;
        assert v[0] != v[i + 1];
      }
    }
  }

  /** Every reference list composes exactly when each of its targets does. */
  lemma {:induction false} RefsSucceed(fs: FileSystem, base: string, refs: seq<string>, stack: set<string>, acc: Config)
    ensures ComposeRefs(fs, base, refs, stack, acc).Ok? <==>
      forall ref :: ref in refs ==> Compose(fs, fs.resolve(base, ref), stack).Ok?
    decreases |refs|
  {
    hide MergeConfig;
    if refs != [] {
      var child := Compose(fs, fs.resolve(base, refs[0]), stack);
      assert refs == [refs[0]] + refs[1..];
      if child.Ok? { RefsSucceed(fs, base, refs[1..], stack, MergeConfig(acc, child.value)); }
    }
  }

  lemma SucceedsByChildren(fs: FileSystem, path: string, stack: set<string>)
    ensures Compose(fs, path, stack).Ok? <==>
      path !in stack && path in fs.files &&
      forall b :: RefersTo(fs, path, b) ==> Compose(fs, b, stack + {path}).Ok?
  {
    if path !in stack && path in fs.files {
      var raw, inner := fs.files[path], stack + {path};
      var all := raw.includes + raw.imports + raw.overlays;
      var a := ComposeRefs(fs, path, raw.includes, inner, EMPTY_CONFIG);
      RefsSucceed(fs, path, raw.includes, inner, EMPTY_CONFIG);
      if a.Ok? {
        RefsSucceed(fs, path, raw.imports, inner, a.value);
        var b := ComposeRefs(fs, path, raw.imports, inner, a.value);
        if b.Ok? { RefsSucceed(fs, path, raw.overlays, inner, MergeConfig(b.value, raw.body)); }
      }
      assert Compose(fs, path, stack).Ok? <==>
        forall ref :: ref in all ==> Compose(fs, fs.resolve(path, ref), inner).Ok?;
      forall ref | ref in all ensures RefersTo(fs, path, fs.resolve(path, ref)) {}
    }
  }

  /** Success in terms of walks, with files already on the stack. */
  lemma {:induction false} SucceedsIffWalksGood(fs: FileSystem, path: string, stack: set<string>)
    ensures Compose(fs, path, stack).Ok? <==> AllWalksGood(fs, path, stack)
    decreases Remaining(fs, stack)
  {
    SucceedsByChildren(fs, path, stack);
    var inner := stack + {path};
    if path !in stack && path in fs.files {
      assert path in Remaining(fs, stack) && Remaining(fs, inner) < Remaining(fs, stack);
      forall b | RefersTo(fs, path, b) ensures Compose(fs, b, inner).Ok? <==> AllWalksGood(fs, b, inner) {
        SucceedsIffWalksGood(fs, b, inner);
      }
      if Compose(fs, path, stack).Ok? {
        forall w | Walk(fs, w) && w[0] == path ensures GoodWalk(fs, w, stack) {
          WalkFromGood(fs, w, stack);
        }
      } else {
        var b :| RefersTo(fs, path, b) && !AllWalksGood(fs, b, inner);
        var w :| Walk(fs, w) && w[0] == b && !GoodWalk(fs, w, inner);
        WalkCons(fs, path, w);
        GoodCons(fs, path, w, stack);
        assert ([path] + w)[0] == path;
      }
    } else {
      assert Walk(fs, [path]) && [path][0] == path;
      GoodCons(fs, path, [], stack);
      assert [path] + [] == [path];
    }
  }

  lemma WalkFromGood(fs: FileSystem, w: seq<string>, stack: set<string>)
    requires Walk(fs, w) && w[0] !in stack && w[0] in fs.files
    requires forall b :: RefersTo(fs, w[0], b) ==> AllWalksGood(fs, b, stack + {w[0]})
    ensures GoodWalk(fs, w, stack)
  {
    var rest := w[1..];
    assert w == [w[0]] + rest;
    GoodCons(fs, w[0], rest, stack);
    if rest != [] {
      assert RefersTo(fs, w[0], rest[0]);
      assert Walk(fs, rest);
    }
  }

  lemma WalkSlice(fs: FileSystem, w: seq<string>, i: nat, j: nat)
    requires Walk(fs, w) && i <= j < |w|
    ensures WalkBetween(fs, w[i..j + 1], w[i], w[j])
  {
    var v := w[i..j + 1];
    forall k | 0 <= k < |v| - 1 ensures RefersTo(fs, v[k], v[k + 1]) {
      assert v[k] == w[i + k] && v[k + 1] == w[i + k + 1];
    }
  }

  lemma WalkJoin(fs: FileSystem, u: seq<string>, v: seq<string>)
    requires Walk(fs, u) && Walk(fs, v) && u[|u| - 1] == v[0]
    ensures Walk(fs, u + v[1..])
  {
    var w := u + v[1..];
    forall k | 0 <= k < |w| - 1 ensures RefersTo(fs, w[k], w[k + 1]) {
      if k >= |u| - 1 {
        assert w[k] == v[k - |u| + 1] && w[k + 1] == v[k - |u| + 2];
      }
    }
  }

  lemma JoinRepeats(u: seq<string>, v: seq<string>)
    requires u != [] && v != [] && u[|u| - 1] == v[0] == v[|v| - 1]
    requires NoDup(u + v[1..])
    ensures |v| == 1
  {
    var w := u + v[1..];
    assert w[|u| - 1] == v[0];
    assert w[|w| - 1] == v[|v| - 1];
  }

  lemma WalksGoodIffAcyclic(fs: FileSystem, path: string)
    ensures AllWalksGood(fs, path, {}) <==>
      forall b :: Reachable(fs, path, b) ==> b in fs.files && !OnCycle(fs, b)
  {
    if AllWalksGood(fs, path, {}) {
      forall b | Reachable(fs, path, b) ensures b in fs.files && !OnCycle(fs, b) {
        var u :| WalkBetween(fs, u, path, b);
        assert u[|u| - 1] in u;
        forall v | WalkBetween(fs, v, b, b) ensures |v| == 1 {
          WalkJoin(fs, u, v);
          JoinRepeats(u, v);
        }
      }
    }
    if forall b :: Reachable(fs, path, b) ==> b in fs.files && !OnCycle(fs, b) {
      forall w | Walk(fs, w) && w[0] == path ensures GoodWalk(fs, w, {}) {
        forall i | 0 <= i < |w| ensures Reachable(fs, path, w[i]) { WalkSlice(fs, w, 0, i); }
        forall i, j | 0 <= i < j < |w| ensures w[i] != w[j] {
          WalkSlice(fs, w, i, j);
          if w[i] == w[j] {
            assert OnCycle(fs, w[i]);
          }
        }
      }
    }
  }

  /** Composition succeeds exactly when every reachable file exists and no cycle is reachable. */
  lemma ComposeSucceedsIff(fs: FileSystem, path: string)
    ensures Compose(fs, path, {}).Ok? <==>
      forall b :: Reachable(fs, path, b) ==> b in fs.files && !OnCycle(fs, b)
  {
    SucceedsIffWalksGood(fs, path, {});
    WalksGoodIffAcyclic(fs, path);
  }

  ghost predicate SomeFails(fs: FileSystem, base: string, refs: seq<string>, stack: set<string>, error: LoadError) {
    exists ref :: ref in refs && Compose(fs, fs.resolve(base, ref), stack) == Err(error)
  }

  /** A failed list of references failed in one of its targets, with the same error. */
  lemma {:induction false} RefsFailure(fs: FileSystem, base: string, refs: seq<string>, stack: set<string>, acc: Config)
    requires ComposeRefs(fs, base, refs, stack, acc).Err?
    ensures SomeFails(fs, base, refs, stack, ComposeRefs(fs, base, refs, stack, acc).error)
    decreases |refs|
  {
    hide MergeConfig;
    var child := Compose(fs, fs.resolve(base, refs[0]), stack);
    assert refs == [refs[0]] + refs[1..];
    if child.Ok? {
      RefsFailure(fs, base, refs[1..], stack, MergeConfig(acc, child.value));
    } else {
      assert refs[0] in refs;
    }
  }

  lemma FailingChild(fs: FileSystem, path: string, stack: set<string>) returns (b: string)
    requires path !in stack && path in fs.files && Compose(fs, path, stack).Err?
    ensures RefersTo(fs, path, b) && Compose(fs, b, stack + {path}) == Compose(fs, path, stack)
  {
    hide MergeConfig;
    var raw, inner, error := fs.files[path], stack + {path}, Compose(fs, path, stack).error;
    var all := raw.includes + raw.imports + raw.overlays;
    var first := ComposeRefs(fs, path, raw.includes, inner, EMPTY_CONFIG);
    var ref: string;
    if first.Err? {
      RefsFailure(fs, path, raw.includes, inner, EMPTY_CONFIG);
      ref :| ref in raw.includes && Compose(fs, fs.resolve(path, ref), inner) == Err(error);
    } else {
      var second := ComposeRefs(fs, path, raw.imports, inner, first.value);
      if second.Err? {
        RefsFailure(fs, path, raw.imports, inner, first.value);
        ref :| ref in raw.imports && Compose(fs, fs.resolve(path, ref), inner) == Err(error);
      } else {
        RefsFailure(fs, path, raw.overlays, inner, MergeConfig(second.value, raw.body));
        ref :| ref in raw.overlays && Compose(fs, fs.resolve(path, ref), inner) == Err(error);
      }
    }
    assert ref in all;
    b := fs.resolve(path, ref);
  }

  lemma ReachableCons(fs: FileSystem, a: string, b: string, c: string)
    requires RefersTo(fs, a, b) && Reachable(fs, b, c)
    ensures Reachable(fs, a, c) && (a == c ==> OnCycle(fs, a))
  {
    hide RefersTo;
    var w :| WalkBetween(fs, w, b, c);
    WalkCons(fs, a, w);
    assert WalkBetween(fs, [a] + w, a, c);
  }

  lemma ReachableSelf(fs: FileSystem, a: string)
    ensures Reachable(fs, a, a)
  {
    assert WalkBetween(fs, [a], a, a);
  }

  ghost predicate Blames(fs: FileSystem, path: string, stack: set<string>, error: LoadError) {
    && Reachable(fs, path, error.path)
    && (error.Cycle? ==> error.path in stack || OnCycle(fs, error.path))
    && (error.Unreadable? ==> error.path !in fs.files)
  }

  lemma {:induction false} ErrorWitness(fs: FileSystem, path: string, stack: set<string>)
    requires Compose(fs, path, stack).Err?
    ensures Blames(fs, path, stack, Compose(fs, path, stack).error)
    decreases Remaining(fs, stack)
  {
    hide Reachable, OnCycle, RefersTo;
    if path in stack || path !in fs.files {
      ReachableSelf(fs, path);
    } else {
      assert path in Remaining(fs, stack) && Remaining(fs, stack + {path}) < Remaining(fs, stack);
      var b := FailingChild(fs, path, stack);
      ErrorWitness(fs, b, stack + {path});
      ReachableCons(fs, path, b, Compose(fs, path, stack).error.path);
    }
  }

  /** A failed composition names a file that is to blame: one on a reachable cycle, or a reachable one that is missing. */
  lemma ErrorNamesTheCulprit(fs: FileSystem, path: string)
    requires Compose(fs, path, {}).Err?
    ensures var error := Compose(fs, path, {}).error;
      && Reachable(fs, path, error.path)
      && (error.Cycle? ==> OnCycle(fs, error.path)) && (error.Unreadable? ==> error.path !in fs.files)
  {
    hide Compose, Reachable, OnCycle;
    ErrorWitness(fs, path, {});
  }

  // ------------------------------------------------------- what it delivers

  /** The files a composition reads, in merge order: includes, imports, the file itself, overlays. */
  ghost function Flatten(fs: FileSystem, path: string, stack: set<string>): seq<Config>
    decreases Remaining(fs, stack), 0
  {
    if path in stack || path !in fs.files then []
    else
      var raw := fs.files[path];
      var inner := stack + {path};
      assert path in Remaining(fs, stack) && Remaining(fs, inner) == Remaining(fs, stack) - {path};
      FlattenRefs(fs, path, raw.includes, inner) + FlattenRefs(fs, path, raw.imports, inner)
      + [raw.body] + FlattenRefs(fs, path, raw.overlays, inner)
  }

  ghost function FlattenRefs(fs: FileSystem, base: string, refs: seq<string>, stack: set<string>): seq<Config>
    decreases Remaining(fs, stack), |refs| + 1
  {
    if refs == [] then []
    else Flatten(fs, fs.resolve(base, refs[0]), stack) + FlattenRefs(fs, base, refs[1..], stack)
  }

  /** A successful composition is a single merge over the flattened list of files. */
  lemma {:induction false} ComposeIsMerge(fs: FileSystem, path: string, stack: set<string>)
    requires Compose(fs, path, stack).Ok?
    ensures Compose(fs, path, stack).value == MergeAll(Flatten(fs, path, stack))
    decreases Remaining(fs, stack), 0
  {
    hide MergeConfig;
    var raw, inner := fs.files[path], stack + {path};
    assert path in Remaining(fs, stack) && Remaining(fs, inner) == Remaining(fs, stack) - {path};
    var xs := FlattenRefs(fs, path, raw.includes, inner);
    var ys := FlattenRefs(fs, path, raw.imports, inner);
    var zs := FlattenRefs(fs, path, raw.overlays, inner);
    assert MergeAll([]) == EMPTY_CONFIG;
    RefsAreMerge(fs, path, raw.includes, inner, []);
    assert [] + xs == xs;
    RefsAreMerge(fs, path, raw.imports, inner, xs);
    MergeAllSnoc(xs + ys, raw.body);
    RefsAreMerge(fs, path, raw.overlays, inner, xs + ys + [raw.body]);
  }

  lemma {:induction false} RefsAreMerge(fs: FileSystem, base: string, refs: seq<string>, stack: set<string>, done: seq<Config>)
    requires ComposeRefs(fs, base, refs, stack, MergeAll(done)).Ok?
    ensures ComposeRefs(fs, base, refs, stack, MergeAll(done)).value
         == MergeAll(done + FlattenRefs(fs, base, refs, stack))
    decreases Remaining(fs, stack), |refs| + 1
  {
    hide MergeConfig;
    hide MergeAll;
    if refs == [] {
      assert done + [] == done;
    } else {
      var p := fs.resolve(base, refs[0]);
      var cs := Flatten(fs, p, stack);
      ComposeIsMerge(fs, p, stack);
      MergeAllAppend(done, cs);
      RefsAreMerge(fs, base, refs[1..], stack, done + cs);
      assert done + cs + FlattenRefs(fs, base, refs[1..], stack) == done + FlattenRefs(fs, base, refs, stack);
    }
  }

  /** The composed document: unique names and ids, first-appearance order, last-written values. */
  lemma ComposedDocument(fs: FileSystem, path: string)
    requires Compose(fs, path, {}).Ok?
    ensures var c, all := Compose(fs, path, {}).value, Flatten(fs, path, {});
      && WellKeyed(c)
      && c.hosts == Canon(Section(all, Hosts), HostName)
      && c.resources == Canon(Section(all, Resources), ResourceId)
      && c.handlers == Canon(Section(all, Handlers), ResourceId)
  {
    ComposeIsMerge(fs, path, {});
    MergeAllWellKeyed(Flatten(fs, path, {}));
    MergeAllMeaning(Flatten(fs, path, {}));
  }
}
