/**
 Loading end to end (Load in internal/config/load.go): compose the files, expand the resources, validate.
 Main results: what loads is normal, with nothing left to expand; and a single file holding a loaded
 configuration loads back to exactly that configuration, whatever order its maps are visited in.
 */
module ConfigLoad {
  import opened Wrappers
  import opened Text
  import opened ConfigModel
  import opened ConfigMerge
  import opened ConfigCompose
  import X = ResourceExpand
  import V = Validate
  import P = ValidatePass

  /** `e` is the configuration with resources and handlers expanded, for some order of visiting their matrices. */
  ghost predicate Expansion(c: Config, e: Config) {
    exists o, p :: X.OrdersFor(c.resources, o) && X.OrdersFor(c.handlers, p) &&
      e == c.(resources := X.ExpandAll(c.resources, o), handlers := X.ExpandAll(c.handlers, p))
  }

  /** A result that loading can deliver. */
  ghost predicate Loads(fs: FileSystem, path: string, out: Config) {
    var c := Compose(fs, path, {});
    c.Ok? && exists e :: Expansion(c.value, e) && V.Acceptable(e) && V.Done(e, out)
  }

  datatype LoadFailure = NotComposed(error: LoadError) | Invalid

  method Load(fs: FileSystem, path: string) returns (r: Result<Config, LoadFailure>)
    ensures r.Ok? ==> Loads(fs, path, r.value) && V.Normal(r.value)
    ensures r.Err? ==>
      var c := Compose(fs, path, {});
      c.Err? || exists e :: Expansion(c.value, e) && !V.Acceptable(e)
  {
    hide Compose;
    hide X.ExpandAll;
    hide X.OrdersFor;
    hide V.Acceptable;
    hide V.Done;
    hide V.Normal;
    var loader := new Loader(fs);
    var composed := loader.LoadComposed(path);
    if composed.Err? { return Err(NotComposed(composed.error)); }
    var c := composed.value;
    var resources, o := X.ExpandCollection(c.resources);
    var handlers, p := X.ExpandCollection(c.handlers);
    var e := c.(resources := resources, handlers := handlers);
    assert Expansion(c, e);
    var document := new P.ConfigDocument(e);
    var ok := document.Validate();
    if !ok { return Err(Invalid); }
    return Ok(Config(document.version, document.hosts, document.execution, document.resources, document.handlers));
  }

  // ------------------------------------------------------ what loading delivers

  predicate AllFlat(rs: seq<Resource>) {
    forall r :: r in rs ==> X.Flat(r)
  }

  /** Texts that only count when they are not blank are empty otherwise. */
  predicate Tidy(e: Execution) {
    (Blank(e.strategy) ==> e.strategy == "") && (Blank(e.failureDomain) ==> e.failureDomain == "")
  }

  lemma LastTextTidy(xs: seq<string>, v: string)
    requires LastNonBlank(xs, v)
    ensures Blank(v) ==> v == ""
  {
    hide Blank;
  }

  lemma ComposedTidy(fs: FileSystem, path: string)
    requires Compose(fs, path, {}).Ok?
    ensures Tidy(Compose(fs, path, {}).value.execution)
  {
    hide Compose;
    hide MergeAll;
    hide LastNonBlank;
    hide LastNonZero;
    var cs := Flatten(fs, path, {});
    ComposeIsMerge(fs, path, {});
    MergeAllScalars(cs);
    LastTextTidy(Texts(cs, Strategy), MergeAll(cs).execution.strategy);
    LastTextTidy(Texts(cs, FailureDomain), MergeAll(cs).execution.failureDomain);
  }

  lemma ExpansionFlat(c: Config, e: Config)
    requires Expansion(c, e)
    ensures AllFlat(e.resources) && AllFlat(e.handlers) && e.execution == c.execution
  {
    hide X.ExpandAll;
    hide X.OrdersFor;
    hide X.Flat;
    var o, p :| X.OrdersFor(c.resources, o) && X.OrdersFor(c.handlers, p) &&
      e == c.(resources := X.ExpandAll(c.resources, o), handlers := X.ExpandAll(c.handlers, p));
    X.ExpandAllFlat(c.resources, o);
    X.ExpandAllFlat(c.handlers, p);
  }

  lemma FlatItemStaysFlat(r: Resource, o: Resource, handler: bool)
    requires X.Flat(r) && V.ItemDone(r, o, handler)
    ensures X.Flat(o)
  {
    V.WhenKept(r);
    assert o.matrix == map[];
  }

  lemma FlatStaysFlat(rs: seq<Resource>, os: seq<Resource>, handler: bool)
    requires AllFlat(rs) && V.ItemsDone(rs, os, handler)
    ensures AllFlat(os)
  {
    hide V.ItemDone;
    hide X.Flat;
    forall o | o in os ensures X.Flat(o) {
      var i :| 0 <= i < |os| && os[i] == o;
      assert rs[i] in rs;
      FlatItemStaysFlat(rs[i], o, handler);
    }
  }

  lemma TidyKept(e: Execution)
    requires Tidy(e)
    ensures Tidy(V.ExecutionDone(e))
  {
    hide TrimSpace;
  }

  /** What loads is normal, fully expanded and tidy. */
  lemma LoadedIsNormal(fs: FileSystem, path: string, out: Config)
    requires Loads(fs, path, out)
    ensures V.Normal(out) && AllFlat(out.resources) && AllFlat(out.handlers) && Tidy(out.execution)
  {
    hide Compose;
    hide Expansion;
    hide AllFlat;
    hide Tidy;
    hide V.Acceptable;
    hide V.Normal;
    hide V.ItemsDone;
    hide V.HostsDone;
    hide V.ExecutionDone;
    var c := Compose(fs, path, {}).value;
    var e :| Expansion(c, e) && V.Acceptable(e) && V.Done(e, out);
    V.AcceptedComesOutNormal(e, out);
    ComposedTidy(fs, path);
    ExpansionFlat(c, e);
    FlatStaysFlat(e.resources, out.resources, false);
    FlatStaysFlat(e.handlers, out.handlers, true);
    TidyKept(e.execution);
  }

  // ------------------------------------------------------------- loading again

  lemma MergeFromNothing<T>(xs: seq<T>, key: T -> string)
    requires UniqueKeys(xs, key)
    ensures Merge([], xs, key) == xs
  {
    MergeMeaning([], xs, key);
    assert [] + xs == xs;
    CanonId(xs, key);
  }

  /** A file that refers to no other composes to its own content. */
  lemma SingleFile(fs: FileSystem, path: string, body: Config)
    requires path in fs.files && fs.files[path] == RawConfig([], [], [], body)
    requires WellKeyed(body) && Tidy(body.execution) && !Blank(body.version)
    ensures Compose(fs, path, {}) == Ok(body)
  {
    hide Merge;
    hide Blank;
    MergeFromNothing(body.hosts, HostName);
    MergeFromNothing(body.resources, ResourceId);
    MergeFromNothing(body.handlers, ResourceId);
    assert MergeConfig(EMPTY_CONFIG, body) == body;
  }

  lemma NormalIsWellKeyed(c: Config)
    requires V.Normal(c)
    ensures WellKeyed(c) && !Blank(c.version)
  {
    hide V.NormalHost;
    hide V.NormalItems;
    hide V.NormalExecution;
    hide Blank;
  }

  lemma {:induction false} FlatOrders(rs: seq<Resource>) returns (orders: seq<seq<string>>)
    requires AllFlat(rs)
    ensures X.OrdersFor(rs, orders)
  {
    orders := seq(|rs|, i => []);
    forall i | 0 <= i < |rs| ensures X.EffectiveMatrix(rs[i]) == map[] { assert rs[i] in rs; }
  }

  lemma FlatExpansion(c: Config, e: Config)
    requires AllFlat(c.resources) && AllFlat(c.handlers)
    ensures Expansion(c, e) <==> e == c
  {
    hide X.ExpandAll;
    hide X.OrdersFor;
    hide X.Flat;
    if Expansion(c, e) {
      var o, p :| X.OrdersFor(c.resources, o) && X.OrdersFor(c.handlers, p) &&
        e == c.(resources := X.ExpandAll(c.resources, o), handlers := X.ExpandAll(c.handlers, p));
      X.FlatListExpandsToItself(c.resources, o);
      X.FlatListExpandsToItself(c.handlers, p);
    }
    var o := FlatOrders(c.resources);
    var p := FlatOrders(c.handlers);
    X.FlatListExpandsToItself(c.resources, o);
    X.FlatListExpandsToItself(c.handlers, p);
    assert c == c.(resources := X.ExpandAll(c.resources, o), handlers := X.ExpandAll(c.handlers, p));
  }

  /** A file that holds a loaded configuration loads, and can only load, to that configuration. */
  lemma LoadedReloads(fs: FileSystem, path: string, out: Config, disk: FileSystem, file: string, again: Config)
    requires Loads(fs, path, out)
    requires file in disk.files && disk.files[file] == RawConfig([], [], [], out)
    ensures Loads(disk, file, again) <==> again == out
    ensures forall e :: Expansion(out, e) ==> V.Acceptable(e)
  {
    hide Compose;
    hide Expansion;
    hide AllFlat;
    hide Tidy;
    hide WellKeyed;
    hide V.Acceptable;
    hide V.Normal;
    hide V.Done;
    LoadedIsNormal(fs, path, out);
    NormalIsWellKeyed(out);
    SingleFile(disk, file, out);
    forall e ensures Expansion(out, e) <==> e == out { FlatExpansion(out, e); }
    V.NormalUnchanged(out, again);
    V.NormalIffFixed(out);
  }
}
