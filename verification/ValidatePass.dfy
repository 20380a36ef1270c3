/**
 The validation pass itself: the loops of internal/config/validate.go, with their seen-sets, over a
 configuration object that they normalise in place. Every method meets the specification in `Validate`.
 */
module ValidatePass {
  import opened Text
  import opened Normalize
  import opened ConfigModel
  import opened Validate

  // ------------------------------------------------------------------ pieces

  method CleanMatrix(m: Matrix) returns (ok: bool, out: Matrix)
    ensures ok == MatrixOk(m)
    ensures ok ==> MatrixDone(m, out)
  {
    hide TrimSpace, SortedClean;
    out := map[];
    var rest := m.Keys;
    while rest != {}
      invariant rest <= m.Keys
      invariant forall k :: k in m && k !in rest ==> !Blank(k) && SortedClean(m[k], TrimSpace) != []
      invariant forall k :: k in m && k !in rest ==> TrimSpace(k) in out
      invariant forall j :: j in out ==>
        exists k :: k in m && k !in rest && TrimSpace(k) == j && out[j] == SortedClean(m[k], TrimSpace)
    {
      var key :| key in rest;
      rest := rest - {key};
      var name := TrimSpace(key);
      if name == "" { return false, m; }
      var clean := SortedCleanLoop(m[key], TrimSpace);
      if |clean| == 0 { return false, m; }
      out := out[name := clean];
    }
    ok := true;
  }

  method NormalizeLoop(r: Resource) returns (ok: bool, out: Resource)
    ensures out == r.(loop := Clean(r.loop, TrimSpace), loopVar := LoopVarOf(r))
    ensures ok == (out.loop == [] || (Simple(out.loopVar) && out.loopVar !in r.matrix))
  {
    hide TrimSpace, Clean;
    var loop := CleanLoop(r.loop, TrimSpace);
    out := r.(loop := loop, loopVar := TrimSpace(r.loopVar));
    if |out.loop| == 0 {
      out := out.(loopVar := "");
      return true, out;
    }
    if out.loopVar == "" { out := out.(loopVar := "item"); }
    if '.' in out.loopVar || ' ' in out.loopVar { return false, out; }
    ok := out.loopVar !in out.matrix;
  }

  method ValidateFile(r: Resource) returns (ok: bool, out: Resource)
    ensures ok == (!r.command.become && FileOk(r.file, r.command))
    ensures ok ==> out == r.(file := FileDone(r.file))
  {
    hide TrimSpace, IsSha256Digest;
    var c, f := r.command, r.file;
    out := r;
    if c.become { return false, out; }
    if TrimSpace(c.onlyIf) != "" || TrimSpace(c.unless) != "" { return false, out; }
    if TrimSpace(c.refreshCommand) != "" { return false, out; }
    if TrimSpace(c.rescueCommand) != "" || TrimSpace(c.alwaysCommand) != "" { return false, out; }
    if TrimSpace(c.retryBackoff) != "" || c.retryJitterSeconds != 0 { return false, out; }
    f := f.(checksum := TrimSpace(f.checksum));
    f := f.(signature := TrimSpace(f.signature));
    f := f.(signingKey := TrimSpace(f.signingKey));
    out := out.(file := f);
    if f.checksum != "" && !IsSha256Digest(f.checksum) { return false, out; }
    if f.signature != "" || f.signingKey != "" {
      if f.signature == "" || f.signingKey == "" { return false, out; }
    }
    ok := TrimSpace(f.path) != "";
  }

  method ValidateCommand(r: Resource) returns (ok: bool, out: Resource)
    ensures ok == (NoContentChecks(r.file) && CommandOk(r.command))
    ensures ok ==> out == r.(command := CommandDone(r.command))
  {
    hide TrimSpace, Norm;
    var c, f := r.command, r.file;
    out := r;
    if TrimSpace(f.checksum) != "" || TrimSpace(f.signature) != "" || TrimSpace(f.signingKey) != "" { return false, out; }
    if TrimSpace(c.command) == "" { return false, out; }
    c := c.(onlyIf := TrimSpace(c.onlyIf), unless := TrimSpace(c.unless));
    c := c.(refreshCommand := TrimSpace(c.refreshCommand));
    c := c.(rescueCommand := TrimSpace(c.rescueCommand), alwaysCommand := TrimSpace(c.alwaysCommand));
    if c.retries < 0 { return false, out; }
    if c.retryDelaySeconds < 0 { return false, out; }
    c := c.(retryBackoff := Norm(c.retryBackoff));
    out := out.(command := c);
    if c.retryBackoff !in {"", "constant", "linear", "exponential"} { return false, out; }
    ok := c.retryJitterSeconds >= 0;
  }

  method ValidateRegistry(r: Resource) returns (ok: bool, out: Resource)
    ensures ok == (!r.command.become && NoContentChecks(r.file) && RegistryOk(r.registry))
    ensures ok ==> out == r.(registry := RegistryDone(r.registry))
  {
    hide TrimSpace;
    var g, f := r.registry, r.file;
    out := r;
    if r.command.become { return false, out; }
    if TrimSpace(f.checksum) != "" || TrimSpace(f.signature) != "" || TrimSpace(f.signingKey) != "" { return false, out; }
    if TrimSpace(g.key) == "" { return false, out; }
    g := g.(key := TrimSpace(g.key), valueType := Norm(g.valueType));
    if g.valueType == "" { g := g.(valueType := "string"); }
    out := out.(registry := g);
    ok := g.valueType in {"string", "dword", "qword"};
  }

  method ValidateTask(r: Resource) returns (ok: bool, out: Resource)
    ensures ok == (!r.command.become && NoContentChecks(r.file) && TaskOk(r.task))
    ensures ok ==> out == r.(task := TaskDone(r.task))
  {
    hide TrimSpace;
    var t, f := r.task, r.file;
    out := r;
    if r.command.become { return false, out; }
    if TrimSpace(f.checksum) != "" || TrimSpace(f.signature) != "" || TrimSpace(f.signingKey) != "" { return false, out; }
    t := t.(name := TrimSpace(t.name));
    t := t.(command := TrimSpace(t.command));
    t := t.(schedule := TrimSpace(t.schedule));
    if t.name == "" { return false, out; }
    if t.command == "" { return false, out; }
    if t.schedule == "" { t := t.(schedule := "@daily"); }
    return true, out.(task := t);
  }

  method ValidateKind(r: Resource) returns (ok: bool, out: Resource)
    ensures ok == KindOk(r)
    ensures ok ==> out == KindDone(r)
  {
    hide FileOk, FileDone, CommandOk, CommandDone, RegistryOk, RegistryDone, TaskOk, TaskDone, NoContentChecks;
    ok, out := false, r;
    match r.kind {
      case "file" => ok, out := ValidateFile(r);
      case "command" => ok, out := ValidateCommand(r);
      case "registry" => ok, out := ValidateRegistry(r);
      case "scheduled_task" => ok, out := ValidateTask(r);
      case _ =>
    }
  }

  /** The loop variable is looked up among the keys of the matrix after it was normalised. */
  lemma LoopAgainstCleanMatrix(r: Resource, m: Matrix)
    requires MatrixDone(r.matrix, m)
    ensures LoopOk(r) <==> Clean(r.loop, TrimSpace) == [] || (Simple(LoopVarOf(r)) && LoopVarOf(r) !in m)
  {
    hide TrimSpace, Clean, SortedClean, LoopVarOf, Simple;
    assert forall j :: j in m ==> exists k :: k in r.matrix && TrimSpace(k) == j;
  }

  lemma ItemAssembled(r: Resource, m: Matrix, tags: seq<string>, handler: bool)
    requires MatrixDone(r.matrix, m) && tags == if handler then r.tags else SortedClean(r.tags, Norm)
    ensures var x := r.(when := TrimSpace(r.when), matrix := m, loop := Clean(r.loop, TrimSpace), loopVar := LoopVarOf(r),
                        command := Privileged(r.command));
            && KindOk(x) == KindOk(r.(command := Privileged(r.command)))
            && ItemDone(r, KindDone(x).(tags := tags), handler)
  {
    hide KindOk, KindDone, NormalKind, Privileged, SortedClean, Clean, LoopVarOf, TrimSpace, Norm, MatrixDone;
    var core := r.(when := TrimSpace(r.when), command := Privileged(r.command));
    var loop, v := Clean(r.loop, TrimSpace), LoopVarOf(r);
    var x := core.(matrix := m, loop := loop, loopVar := v);
    assert x == core.(matrix := m, loop := loop, loopVar := v, tags := r.tags);
    KindIgnores(core, m, loop, v, r.tags, core.when);
    KindIgnores(r.(command := Privileged(r.command)), m, loop, v, r.tags, core.when);
    KindOkIgnores(core, m, loop, v);
    assert KindDone(x).(tags := tags) == ItemCore(r).(matrix := m, loop := loop, loopVar := v, tags := tags);
  }

  lemma KindOkIgnores(r: Resource, m: Matrix, loop: seq<string>, v: string)
    ensures KindOk(r.(matrix := m, loop := loop, loopVar := v)) == KindOk(r)
  {
    hide FileOk, CommandOk, RegistryOk, TaskOk, NoContentChecks;
  }

  /** The body shared by the loops over resources and over handlers, apart from the seen-set. */
  method ValidateItem(r: Resource, hosts: set<string>, handler: bool) returns (ok: bool, out: Resource)
    ensures ok == (ItemOk(r, handler) && Placed(r, hosts))
    ensures ok ==> ItemDone(r, out, handler)
  {
    hide KindOk, KindDone, Privileged, SortedClean, Clean, LoopVarOf, LoopOk, MatrixOk, MatrixDone, TrimSpace, ItemDone;
    out := r;
    if TrimSpace(r.id) == "" { return false, out; }
    if r.host !in hosts { return false, out; }
    if TrimSpace(r.delegateTo) != "" && r.delegateTo !in hosts { return false, out; }
    out := out.(when := TrimSpace(out.when));
    var fine, m := CleanMatrix(r.matrix);
    if !fine { return false, out; }
    LoopAgainstCleanMatrix(r, m);
    ItemAssembled(r, m, if handler then r.tags else SortedClean(r.tags, Norm), handler);
    out := out.(matrix := m);
    SameLoop(r, out);
    fine, out := NormalizeLoop(out);
    if !fine { return false, out; }
    out := out.(command := Privileged(out.command));
    var l := r.links;
    if handler && (|l.dependsOn| > 0 || |l.require| > 0 || |l.before| > 0 || |l.notify| > 0 || |l.subscribe| > 0 || |l.notifyHandlers| > 0) {
      return false, out;
    }
    KindKeepsTags(out);
    fine, out := ValidateKind(out);
    if !fine { return false, out; }
    if !handler {
      var tags := SortedCleanLoop(out.tags, Norm);
      out := out.(tags := tags);
    }
    ok := true;
  }

  lemma SameLoop(r: Resource, o: Resource)
    requires o.loop == r.loop && o.loopVar == r.loopVar
    ensures LoopVarOf(o) == LoopVarOf(r)
  {}

  lemma KindKeepsTags(r: Resource)
    ensures KindDone(r).tags == r.tags && KindDone(r).(tags := r.tags) == KindDone(r)
  {
    hide FileDone, CommandDone, RegistryDone, TaskDone;
  }

  method CleanCapabilities(caps: seq<string>) returns (ok: bool, out: seq<string>)
    ensures ok == forall c :: c in caps ==> Blank(c) || CapabilityOk(Norm(c))
    ensures ok ==> out == SortedClean(caps, Norm)
  {
    hide TrimSpace, Norm, CapabilityOk;
    out := [];
    var seen: set<string> := {};
    for i := 0 to |caps|
      invariant out == Clean(caps[..i], Norm) && seen == Elems(out)
      invariant forall c :: c in caps[..i] ==> Blank(c) || CapabilityOk(Norm(c))
    {
      assert caps[..i + 1][..i] == caps[..i] && caps[..i + 1] == caps[..i] + [caps[i]];
      var cap := Norm(caps[i]);
      NormEmpty(caps[i]);
      if cap == "" { continue; }
      if !CapabilityOk(cap) {
        assert caps[i] in caps;
        return false, out;
      }
      if cap in seen { continue; }
      seen, out := seen + {cap}, out + [cap];
    }
    assert caps[..|caps|] == caps;
    return true, Sort(out);
  }

  lemma NormEmpty(s: string)
    ensures Norm(s) == "" <==> Blank(s)
  {}

  method ValidateExecution(e: Execution) returns (ok: bool, out: Execution)
    ensures ok == ExecutionOk(e)
    ensures ok ==> out == ExecutionDone(e)
  {
    hide Norm;
    out := e;
    if Norm(e.strategy) !in {"", "linear", "free", "serial"} { return false, out; }
    if e.serial < 0 { return false, out; }
    if e.maxFailPercentage < 0 || e.maxFailPercentage > 100 { return false, out; }
    out := e.(failureDomain := Norm(e.failureDomain));
    ok := out.failureDomain in {"", "rack", "zone", "region"};
  }

  method ValidateHost(h: Host) returns (ok: bool, out: Host)
    ensures ok == HostOk(h)
    ensures ok ==> HostDone(h, out)
  {
    hide TrimSpace, Norm, SortedClean, MapCleaned, TransportOk, CapabilityOk;
    out := h;
    if TrimSpace(h.name) == "" { return false, out; }
    if h.transport == "" { out := out.(transport := "local"); }
    out := out.(transport := Norm(out.transport));
    if !TransportOk(out.transport) { return false, out; }
    out := out.(address := TrimSpace(out.address), user := TrimSpace(out.user));
    out := out.(jumpAddress := TrimSpace(out.jumpAddress), jumpUser := TrimSpace(out.jumpUser));
    out := out.(proxyCommand := TrimSpace(out.proxyCommand));
    if out.port < 0 || out.port > 65535 { return false, out; }
    if out.jumpPort < 0 || out.jumpPort > 65535 { return false, out; }
    var fine, caps := CleanCapabilities(out.capabilities);
    if !fine { return false, out; }
    out := out.(capabilities := caps);
    var roles := SortedCleanLoop(out.roles, Norm);
    out := out.(roles := roles);
    var labels := CleanMapLoop(out.labels, Norm);
    out := out.(labels := labels);
    var topology := CleanMapLoop(out.topology, Norm);
    out := out.(topology := topology);
    ok := true;
  }

  // ------------------------------------------------------- the loops over items

  method ValidateHosts(hosts: seq<Host>) returns (ok: bool, out: seq<Host>, names: set<string>)
    ensures ok == (UniqueHosts(hosts) && forall i :: 0 <= i < |hosts| ==> HostOk(hosts[i]))
    ensures ok ==> HostsDone(hosts, out) && names == HostNames(hosts)
  {
    hide HostOk, HostDone;
    out, names := hosts, {};
    for i := 0 to |hosts|
      invariant |out| == |hosts| && names == HostNames(hosts[..i]) && UniqueHosts(hosts[..i])
      invariant forall k :: i <= k < |hosts| ==> out[k] == hosts[k]
      invariant forall k :: 0 <= k < i ==> HostOk(hosts[k]) && HostDone(hosts[k], out[k])
    {
      NextHost(hosts, i);
      var seen := hosts[i].name in names;
      names := names + {hosts[i].name};
      var fine, h := ValidateHost(out[i]);
      if seen || !fine { return false, out, names; }
      out := out[i := h];
    }
    assert hosts[..|hosts|] == hosts;
    ok := true;
  }

  lemma NextHost(hosts: seq<Host>, i: nat)
    requires i < |hosts|
    ensures HostNames(hosts[..i + 1]) == HostNames(hosts[..i]) + {hosts[i].name}
    ensures UniqueHosts(hosts[..i]) ==> (UniqueHosts(hosts[..i + 1]) <==> hosts[i].name !in HostNames(hosts[..i]))
    ensures UniqueHosts(hosts) ==> UniqueHosts(hosts[..i + 1])
  {
    var a, b := hosts[..i], hosts[..i + 1];
    assert b == a + [hosts[i]];
    if hosts[i].name in HostNames(a) {
      var k :| 0 <= k < i && a[k].name == hosts[i].name;
      assert b[k].name == b[i].name;
    }
  }

  method ValidateItems(rs: seq<Resource>, hosts: set<string>, handler: bool)
    returns (ok: bool, out: seq<Resource>, ids: set<string>)
    ensures ok == (UniqueIds(rs) && ItemsOk(rs, handler) && forall i :: 0 <= i < |rs| ==> Placed(rs[i], hosts))
    ensures ok ==> ItemsDone(rs, out, handler) && ids == Ids(rs)
  {
    hide ItemOk, ItemDone, Placed;
    out, ids := rs, {};
    for i := 0 to |rs|
      invariant |out| == |rs| && ids == Ids(rs[..i]) && UniqueIds(rs[..i])
      invariant forall k :: i <= k < |rs| ==> out[k] == rs[k]
      invariant forall k :: 0 <= k < i ==> ItemOk(rs[k], handler) && Placed(rs[k], hosts) && ItemDone(rs[k], out[k], handler)
    {
      NextId(rs, i);
      var seen := rs[i].id in ids;
      ids := ids + {rs[i].id};
      var fine, r := ValidateItem(out[i], hosts, handler);
      if seen || !fine { return false, out, ids; }
      out := out[i := r];
    }
    assert rs[..|rs|] == rs;
    ok := true;
  }

  lemma NextId(rs: seq<Resource>, i: nat)
    requires i < |rs|
    ensures Ids(rs[..i + 1]) == Ids(rs[..i]) + {rs[i].id}
    ensures UniqueIds(rs[..i]) ==> (UniqueIds(rs[..i + 1]) <==> rs[i].id !in Ids(rs[..i]))
    ensures UniqueIds(rs) ==> UniqueIds(rs[..i + 1])
  {
    var a, b := rs[..i], rs[..i + 1];
    assert b == a + [rs[i]];
    if rs[i].id in Ids(a) {
      var k :| 0 <= k < i && a[k].id == rs[i].id;
      assert b[k].id == b[i].id;
    }
  }

  method AllKnown(names: seq<string>, known: set<string>) returns (ok: bool)
    ensures ok == Known(names, known)
  {
    for i := 0 to |names|
      invariant forall k :: 0 <= k < i ==> names[k] in known
    {
      if names[i] !in known { return false; }
    }
    return true;
  }

  method CheckLinks(rs: seq<Resource>, ids: set<string>, handlers: set<string>)
    returns (ok: bool, notified: set<string>)
    ensures ok == forall i :: 0 <= i < |rs| ==> Linked(rs[i].links, ids, handlers)
    ensures ok ==> notified == Notified(rs)
  {
    hide Known;
    notified := {};
    for i := 0 to |rs|
      invariant forall k :: 0 <= k < i ==> Linked(rs[k].links, ids, handlers)
      invariant notified == Notified(rs[..i])
    {
      var l := rs[i].links;
      var a := AllKnown(l.dependsOn, ids);
      var b := AllKnown(l.require, ids);
      var c := AllKnown(l.subscribe, ids);
      var d := AllKnown(l.before, ids);
      var e := AllKnown(l.notify, ids);
      var f := AllKnown(l.notifyHandlers, handlers);
      if !(a && b && c && d && e && f) { return false, notified; }
      NextNotified(rs, i);
      notified := notified + Elems(l.notify);
    }
    assert rs[..|rs|] == rs;
    ok := true;
  }

  lemma NextNotified(rs: seq<Resource>, i: nat)
    requires i < |rs|
    ensures Notified(rs[..i + 1]) == Notified(rs[..i]) + Elems(rs[i].links.notify)
  {
    assert rs[..i + 1] == rs[..i] + [rs[i]];
  }

  method CheckRefreshOnly(rs: seq<Resource>, notified: set<string>) returns (ok: bool)
    ensures ok == forall i :: 0 <= i < |rs| ==> Triggered(rs[i], notified)
  {
    for i := 0 to |rs|
      invariant forall k :: 0 <= k < i ==> Triggered(rs[k], notified)
    {
      if !rs[i].command.refreshOnly { continue; }
      if |rs[i].links.subscribe| > 0 { continue; }
      if rs[i].id in notified { continue; }
      return false;
    }
    return true;
  }

  // ------------------------------------------------------------- the whole pass

  class ConfigDocument {
    var version: string
    var hosts: seq<Host>
    var execution: Execution
    var resources: seq<Resource>
    var handlers: seq<Resource>

    ghost function Snapshot(): Config
      reads this
    {
      Config(version, hosts, execution, resources, handlers)
    }

    constructor (cfg: Config)
      ensures Snapshot() == cfg
    {
      version, hosts, execution, resources, handlers :=
        cfg.version, cfg.hosts, cfg.execution, cfg.resources, cfg.handlers;
    }

    /** Accepts exactly the acceptable configurations and leaves them normal. */
    method Validate() returns (ok: bool)
      modifies this
      ensures ok == Acceptable(old(Snapshot()))
      ensures ok ==> Done(old(Snapshot()), Snapshot()) && Normal(Snapshot())
    {
      hide HostOk, HostsDone, ItemsOk, ItemsDone, Placed, Linked, Triggered, UniqueHosts, UniqueIds, Normal, TrimSpace;
      hide HostNames, Ids, Notified, ExecutionOk, ExecutionDone;
      ghost var before := Snapshot();
      if TrimSpace(version) == "" { return false; }
      var fine, hostSet, ids, handlerIds, notified;
      fine, execution := ValidateExecution(execution);
      if !fine { return false; }
      fine, hosts, hostSet := ValidateHosts(hosts);
      if !fine { return false; }
      fine, resources, ids := ValidateItems(resources, hostSet, false);
      if !fine { return false; }
      fine, handlers, handlerIds := ValidateItems(handlers, hostSet, true);
      if !fine { return false; }
      ShapesOf(before.resources, resources, false);
      SameIds(before.resources, resources);
      LinksOfShapes(before.resources, resources, ids, handlerIds, Notified(before.resources));
      fine, notified := CheckLinks(resources, ids, handlerIds);
      if !fine { return false; }
      fine := CheckRefreshOnly(resources, notified);
      if !fine { return false; }
      AcceptedComesOutNormal(before, Snapshot());
      return true;
    }
  }

  /** Normalising does not disturb what the reference checks look at. */
  lemma LinksOfShapes(rs: seq<Resource>, os: seq<Resource>, ids: set<string>, handlers: set<string>, notified: set<string>)
    requires SameShapes(rs, os)
    ensures (forall i :: 0 <= i < |os| ==> Linked(os[i].links, ids, handlers))
         == (forall i :: 0 <= i < |rs| ==> Linked(rs[i].links, ids, handlers))
    ensures (forall i :: 0 <= i < |os| ==> Triggered(os[i], notified))
         == (forall i :: 0 <= i < |rs| ==> Triggered(rs[i], notified))
  {
    hide Linked;
    assert forall i :: 0 <= i < |rs| ==> SameShape(rs[i], os[i]);
  }
}
