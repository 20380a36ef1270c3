/**
 Checking and normalising a configuration in place (internal/config/validate.go).
 Main results: exactly which configurations are accepted; what is accepted comes out normal, that is with unique
 ids, resolving references and every field in normal form; and the normal configurations are exactly the ones
 that are accepted unchanged, so validating twice is validating once.
 */
module Validate {
  import opened Text
  import opened Normalize
  import opened ConfigModel

  // -------------------------------------------------------------- execution

  predicate ExecutionOk(e: Execution) {
    && Norm(e.strategy) in {"", "linear", "free", "serial"} && e.serial >= 0 && 0 <= e.maxFailPercentage <= 100
    && Norm(e.failureDomain) in {"", "rack", "zone", "region"}
  }

  function ExecutionDone(e: Execution): Execution {
    e.(failureDomain := Norm(e.failureDomain))
  }

  predicate NormalExecution(e: Execution) {
    ExecutionOk(e) && Norm(e.failureDomain) == e.failureDomain
  }

  // ------------------------------------------------------------------ hosts

  predicate HasPrefix(s: string, p: string) {
    |p| <= |s| && s[..|p|] == p
  }

  function TransportOf(h: Host): string {
    Norm(if h.transport == "" then "local" else h.transport)
  }

  predicate TransportOk(t: string) {
    t in {"local", "ssh", "winrm", "auto"} || HasPrefix(Norm(t), "plugin/")
  }

  predicate CapabilityOk(c: string) {
    c in {"local", "ssh", "winrm"}
  }

  predicate HostOk(h: Host) {
    && !Blank(h.name) && TransportOk(TransportOf(h)) && 0 <= h.port <= 65535 && 0 <= h.jumpPort <= 65535
    && forall c :: c in h.capabilities ==> Blank(c) || CapabilityOk(Norm(c))
  }

  ghost predicate HostDone(h: Host, o: Host) {
    && o.name == h.name && o.transport == TransportOf(h) && o.port == h.port && o.jumpPort == h.jumpPort
    && o.address == TrimSpace(h.address) && o.user == TrimSpace(h.user)
    && o.jumpAddress == TrimSpace(h.jumpAddress) && o.jumpUser == TrimSpace(h.jumpUser)
    && o.proxyCommand == TrimSpace(h.proxyCommand)
    && o.capabilities == SortedClean(h.capabilities, Norm) && o.roles == SortedClean(h.roles, Norm)
    && MapCleaned(h.labels, o.labels, Norm) && MapCleaned(h.topology, o.topology, Norm)
  }

  ghost predicate NormalHost(h: Host) {
    && !Blank(h.name) && h.transport != "" && TransportOk(h.transport) && Norm(h.transport) == h.transport
    && 0 <= h.port <= 65535 && 0 <= h.jumpPort <= 65535
    && Trimmed(h.address) && Trimmed(h.user) && Trimmed(h.jumpAddress) && Trimmed(h.jumpUser)
    && Trimmed(h.proxyCommand) && IsSortedClean(h.capabilities, Norm) && IsSortedClean(h.roles, Norm)
    && (forall c :: c in h.capabilities ==> CapabilityOk(c))
    && IsCleanMap(h.labels, Norm) && IsCleanMap(h.topology, Norm)
  }

  lemma CapabilitiesKept(xs: seq<string>)
    requires forall c :: c in xs ==> Blank(c) || CapabilityOk(Norm(c))
    ensures forall c :: c in SortedClean(xs, Norm) ==> CapabilityOk(c)
  {
    hide SortedClean, CapabilityOk;
    SortedCleanMeaning(xs, Norm);
    forall c | c in SortedClean(xs, Norm) ensures CapabilityOk(c) {
      assert c in Elems(SortedClean(xs, Norm));
      var x :| x in xs && Norm(x) != "" && Norm(x) == c;
    }
  }

  lemma TransportNormal(h: Host)
    requires TransportOk(TransportOf(h))
    ensures TransportOf(h) != "" && Norm(TransportOf(h)) == TransportOf(h)
  {
    hide TrimSpace;
  }

  lemma HostComesOutNormal(h: Host, o: Host)
    requires HostOk(h) && HostDone(h, o)
    ensures NormalHost(o)
  {
    hide TrimSpace, Norm, SortedClean, MapCleaned, IsCleanMap, TransportOk, CapabilityOk, TransportOf;
    TransportNormal(h);
    CapabilitiesKept(h.capabilities);
    SortedCleanMeaning(h.capabilities, Norm);
    SortedCleanMeaning(h.roles, Norm);
    MapCleanedIsClean(h.labels, o.labels, Norm);
    MapCleanedIsClean(h.topology, o.topology, Norm);
  }

  lemma NormalHostUnchanged(h: Host, o: Host)
    requires NormalHost(h)
    ensures HostOk(h)
    ensures HostDone(h, o) ==> o == h
  {
    hide TrimSpace, SortedClean, MapCleaned, IsCleanMap, TransportOk, CapabilityOk;
    SortedCleanId(h.capabilities, Norm);
    SortedCleanId(h.roles, Norm);
    if HostDone(h, o) {
      CleanMapId(h.labels, o.labels, Norm);
      CleanMapId(h.topology, o.topology, Norm);
    }
  }

  // ------------------------------------------------------ matrices and loops

  type Matrix = map<string, seq<string>>

  predicate MatrixOk(m: Matrix) {
    forall k :: k in m ==> !Blank(k) && SortedClean(m[k], TrimSpace) != []
  }

  /** As with labels, keys with the same trimmed name leave the values of any one of them. */
  ghost predicate MatrixDone(m: Matrix, o: Matrix) {
    && (forall k :: k in m ==> TrimSpace(k) in o)
    && forall j :: j in o ==> exists k :: k in m && TrimSpace(k) == j && o[j] == SortedClean(m[k], TrimSpace)
  }

  ghost predicate NormalMatrix(m: Matrix) {
    forall k :: k in m ==> k != "" && Trimmed(k) && m[k] != [] && IsSortedClean(m[k], TrimSpace)
  }

  lemma MatrixComesOutNormal(m: Matrix, o: Matrix)
    requires MatrixOk(m) && MatrixDone(m, o)
    ensures NormalMatrix(o)
  {
    hide TrimSpace, SortedClean;
    forall j | j in o ensures j != "" && Trimmed(j) && o[j] != [] && IsSortedClean(o[j], TrimSpace) {
      var k :| k in m && TrimSpace(k) == j && o[j] == SortedClean(m[k], TrimSpace);
      SortedCleanMeaning(m[k], TrimSpace);
    }
  }

  lemma NormalMatrixUnchanged(m: Matrix, o: Matrix)
    requires NormalMatrix(m)
    ensures MatrixOk(m)
    ensures MatrixDone(m, o) ==> o == m
  {
    hide TrimSpace, SortedClean;
    forall k | k in m ensures SortedClean(m[k], TrimSpace) == m[k] { SortedCleanId(m[k], TrimSpace); }
    if MatrixDone(m, o) {
      assert forall k :: k in m ==> TrimSpace(k) == k;
      assert forall j :: j in o ==> j in m && o[j] == m[j];
      assert forall k :: k in m ==> k in o;
    }
  }

  predicate Simple(v: string) {
    '.' !in v && ' ' !in v
  }

  function LoopVarOf(r: Resource): string {
    if Clean(r.loop, TrimSpace) == [] then "" else if Blank(r.loopVar) then "item" else TrimSpace(r.loopVar)
  }

  /** The loop variable is a simple token and not a matrix key. */
  predicate LoopOk(r: Resource) {
    Clean(r.loop, TrimSpace) != [] ==>
      Simple(LoopVarOf(r)) && forall k :: k in r.matrix ==> TrimSpace(k) != LoopVarOf(r)
  }

  predicate NormalLoop(r: Resource) {
    && NoDup(r.loop) && (forall x :: x in r.loop ==> x != "" && Trimmed(x))
    && if r.loop == [] then r.loopVar == ""
       else r.loopVar != "" && Trimmed(r.loopVar) && Simple(r.loopVar) && r.loopVar !in r.matrix
  }

  ghost predicate LoopDone(r: Resource, o: Resource) {
    o.loop == Clean(r.loop, TrimSpace) && o.loopVar == LoopVarOf(r) && MatrixDone(r.matrix, o.matrix)
  }

  lemma LoopComesOutNormal(r: Resource, o: Resource)
    requires LoopOk(r) && LoopDone(r, o)
    ensures NormalLoop(o)
  {
    hide TrimSpace, Clean, Simple, SortedClean;
    CleanMembers(r.loop, TrimSpace);
    assert Trimmed("item");
    assert forall j :: j in o.matrix ==> exists k :: k in r.matrix && TrimSpace(k) == j;
  }

  lemma NormalLoopUnchanged(r: Resource)
    requires NormalLoop(r) && NormalMatrix(r.matrix)
    ensures LoopOk(r) && Clean(r.loop, TrimSpace) == r.loop && LoopVarOf(r) == r.loopVar
  {
    hide TrimSpace, Clean, Simple;
    CleanId(r.loop, TrimSpace);
    assert forall k :: k in r.matrix ==> TrimSpace(k) == k;
  }

  // --------------------------------------------------------- kinds of resource

  predicate IsHexChar(c: char) {
    '0' <= c <= '9' || 'a' <= c <= 'f' || 'A' <= c <= 'F'
  }

  /** `sha256:` and 64 hexadecimal digits, in either case. */
  predicate IsSha256Digest(raw: string) {
    var v := TrimSpace(ToLower(raw));
    HasPrefix(v, "sha256:") && |v| == 71 && forall i :: 7 <= i < 71 ==> IsHexChar(v[i])
  }

  /** Naming a user to become means becoming. */
  function Privileged(c: CommandSpec): CommandSpec {
    c.(becomeUser := TrimSpace(c.becomeUser), become := c.become || !Blank(c.becomeUser))
  }

  predicate NoContentChecks(f: FileSpec) {
    Blank(f.checksum) && Blank(f.signature) && Blank(f.signingKey)
  }

  predicate FileOk(f: FileSpec, c: CommandSpec) {
    && Blank(c.onlyIf) && Blank(c.unless) && Blank(c.refreshCommand) && Blank(c.rescueCommand)
    && Blank(c.alwaysCommand) && Blank(c.retryBackoff) && c.retryJitterSeconds == 0
    && (Blank(f.checksum) || IsSha256Digest(TrimSpace(f.checksum)))
    && (Blank(f.signature) <==> Blank(f.signingKey)) && !Blank(f.path)
  }

  function FileDone(f: FileSpec): FileSpec {
    f.(checksum := TrimSpace(f.checksum), signature := TrimSpace(f.signature), signingKey := TrimSpace(f.signingKey))
  }

  predicate CommandOk(c: CommandSpec) {
    && !Blank(c.command) && c.retries >= 0 && c.retryDelaySeconds >= 0 && c.retryJitterSeconds >= 0
    && Norm(c.retryBackoff) in {"", "constant", "linear", "exponential"}
  }

  function CommandDone(c: CommandSpec): CommandSpec {
    c.(onlyIf := TrimSpace(c.onlyIf), unless := TrimSpace(c.unless), refreshCommand := TrimSpace(c.refreshCommand),
       rescueCommand := TrimSpace(c.rescueCommand), alwaysCommand := TrimSpace(c.alwaysCommand),
       retryBackoff := Norm(c.retryBackoff))
  }

  predicate RegistryOk(g: RegistrySpec) {
    !Blank(g.key) && Norm(g.valueType) in {"", "string", "dword", "qword"}
  }

  function RegistryDone(g: RegistrySpec): RegistrySpec {
    g.(key := TrimSpace(g.key), valueType := if Blank(g.valueType) then "string" else Norm(g.valueType))
  }

  predicate TaskOk(t: TaskSpec) {
    !Blank(t.name) && !Blank(t.command)
  }

  function TaskDone(t: TaskSpec): TaskSpec {
    TaskSpec(TrimSpace(t.name), if Blank(t.schedule) then "@daily" else TrimSpace(t.schedule), TrimSpace(t.command))
  }

  predicate KindOk(r: Resource) {
    match r.kind
    case "file" => !r.command.become && FileOk(r.file, r.command)
    case "command" => NoContentChecks(r.file) && CommandOk(r.command)
    case "registry" => !r.command.become && NoContentChecks(r.file) && RegistryOk(r.registry)
    case "scheduled_task" => !r.command.become && NoContentChecks(r.file) && TaskOk(r.task)
    case _ => false
  }

  function KindDone(r: Resource): Resource {
    match r.kind
    case "file" => r.(file := FileDone(r.file))
    case "command" => r.(command := CommandDone(r.command))
    case "registry" => r.(registry := RegistryDone(r.registry))
    case "scheduled_task" => r.(task := TaskDone(r.task))
    case _ => r
  }

  predicate NormalFile(f: FileSpec) {
    Trimmed(f.checksum) && Trimmed(f.signature) && Trimmed(f.signingKey)
  }

  predicate NormalCommand(c: CommandSpec) {
    && Trimmed(c.onlyIf) && Trimmed(c.unless) && Trimmed(c.refreshCommand) && Trimmed(c.rescueCommand)
    && Trimmed(c.alwaysCommand) && Norm(c.retryBackoff) == c.retryBackoff
  }

  predicate NormalRegistry(g: RegistrySpec) {
    Trimmed(g.key) && g.valueType in {"string", "dword", "qword"}
  }

  predicate NormalTask(t: TaskSpec) {
    Trimmed(t.name) && Trimmed(t.command) && Trimmed(t.schedule) && t.schedule != ""
  }

  /** Only commands may become another user, and each kind's own fields are in normal form. */
  predicate NormalKind(r: Resource) {
    && KindOk(r) && Trimmed(r.command.becomeUser) && (r.command.becomeUser != "" ==> r.command.become)
    && match r.kind
       case "file" => NormalFile(r.file)
       case "command" => NormalCommand(r.command)
       case "registry" => NormalRegistry(r.registry)
       case _ => NormalTask(r.task)
  }

  lemma FileTwice(f: FileSpec, c: CommandSpec)
    ensures FileOk(f, c) ==> FileOk(FileDone(f), c)
    ensures NormalFile(FileDone(f))
    ensures NormalFile(f) ==> FileDone(f) == f
  {
    hide TrimSpace, IsSha256Digest;
  }

  lemma CommandTwice(c: CommandSpec)
    ensures CommandOk(CommandDone(c)) == CommandOk(c)
    ensures NormalCommand(CommandDone(c))
    ensures NormalCommand(c) ==> CommandDone(c) == c
  {
    hide TrimSpace;
  }

  lemma RegistryTwice(g: RegistrySpec)
    ensures RegistryOk(g) ==> RegistryOk(RegistryDone(g)) && NormalRegistry(RegistryDone(g))
    ensures NormalRegistry(g) ==> RegistryDone(g) == g
  {
    hide TrimSpace;
    assert Trimmed("string") && Lowered("string") && Trimmed("dword") && Lowered("dword");
    assert Trimmed("qword") && Lowered("qword");
    assert Norm("string") == "string";
  }

  lemma TaskTwice(t: TaskSpec)
    ensures TaskOk(t) ==> TaskOk(TaskDone(t))
    ensures NormalTask(TaskDone(t))
    ensures NormalTask(t) ==> TaskDone(t) == t
  {
    hide TrimSpace;
    assert Trimmed("@daily");
  }

  lemma KindComesOutNormal(r: Resource)
    requires KindOk(r) && Trimmed(r.command.becomeUser) && (r.command.becomeUser != "" ==> r.command.become)
    ensures NormalKind(KindDone(r))
  {
    hide FileOk, FileDone, NormalFile, CommandOk, NormalCommand, TrimSpace, Norm, RegistryOk, RegistryDone;
    hide NormalRegistry, TaskOk, TaskDone, NormalTask;
    FileTwice(r.file, r.command);
    CommandTwice(r.command);
    RegistryTwice(r.registry);
    TaskTwice(r.task);
  }

  lemma NormalKindUnchanged(r: Resource)
    requires NormalKind(r)
    ensures KindOk(r) && KindDone(r) == r && Privileged(r.command) == r.command
  {
    hide FileOk, FileDone, NormalFile, CommandOk, CommandDone, NormalCommand, TrimSpace, Norm, RegistryOk;
    hide RegistryDone, NormalRegistry, TaskOk, TaskDone, NormalTask;
    FileTwice(r.file, r.command);
    CommandTwice(r.command);
    RegistryTwice(r.registry);
    TaskTwice(r.task);
  }

  // -------------------------------------------------- resources and handlers

  const NO_LINKS := Links([], [], [], [], [], [])

  /** Accepted by itself; handlers may not take part in the resource graph. */
  predicate ItemOk(r: Resource, handler: bool) {
    && !Blank(r.id) && MatrixOk(r.matrix) && LoopOk(r) && (handler ==> r.links == NO_LINKS)
    && KindOk(r.(command := Privileged(r.command)))
  }

  /** Everything but the matrix, the loop and the tags. */
  function ItemCore(r: Resource): Resource {
    KindDone(r.(when := TrimSpace(r.when), command := Privileged(r.command)))
  }

  ghost predicate ItemDone(r: Resource, o: Resource, handler: bool) {
    && LoopDone(r, o) && o.tags == (if handler then r.tags else SortedClean(r.tags, Norm))
    && o == ItemCore(r).(matrix := o.matrix, loop := o.loop, loopVar := o.loopVar, tags := o.tags)
  }

  ghost predicate NormalItem(r: Resource, handler: bool) {
    && !Blank(r.id) && Trimmed(r.when) && NormalMatrix(r.matrix) && NormalLoop(r) && NormalKind(r)
    && if handler then r.links == NO_LINKS else IsSortedClean(r.tags, Norm)
  }

  /** What validation never touches. */
  lemma ItemKeeps(r: Resource, o: Resource, handler: bool)
    requires ItemDone(r, o, handler)
    ensures o.id == r.id && o.kind == r.kind && o.host == r.host && o.delegateTo == r.delegateTo && o.links == r.links
    ensures o.command.refreshOnly == r.command.refreshOnly
  {
    hide TrimSpace, Norm, SortedClean, LoopDone;
  }

  lemma KindIgnores(r: Resource, m: Matrix, loop: seq<string>, v: string, tags: seq<string>, when: string)
    ensures var x := r.(matrix := m, loop := loop, loopVar := v, tags := tags);
            && KindDone(x) == KindDone(r).(matrix := m, loop := loop, loopVar := v, tags := tags)
            && NormalKind(x) == NormalKind(r)
            && KindOk(r.(when := when)) == KindOk(r)
  {
    hide FileOk, FileDone, NormalFile, CommandOk, CommandDone, NormalCommand, TrimSpace, Norm, RegistryOk;
    hide RegistryDone, NormalRegistry, TaskOk, TaskDone, NormalTask;
  }

  lemma PrivilegedNormal(c: CommandSpec)
    ensures var p := Privileged(c); Trimmed(p.becomeUser) && (p.becomeUser != "" ==> p.become)
  {
    hide TrimSpace;
  }

  lemma ItemComesOutNormal(r: Resource, o: Resource, handler: bool)
    requires ItemOk(r, handler) && ItemDone(r, o, handler)
    ensures NormalItem(o, handler)
  {
    hide KindOk, KindDone, NormalKind, Privileged, SortedClean, NormalMatrix, NormalLoop, MatrixOk, MatrixDone;
    hide LoopOk, TrimSpace, Norm;
    MatrixComesOutNormal(r.matrix, o.matrix);
    LoopComesOutNormal(r, o);
    var core := r.(when := TrimSpace(r.when), command := Privileged(r.command));
    PrivilegedNormal(r.command);
    KindIgnores(r.(command := Privileged(r.command)), r.matrix, r.loop, r.loopVar, r.tags, core.when);
    KindComesOutNormal(core);
    KindIgnores(ItemCore(r), o.matrix, o.loop, o.loopVar, o.tags, o.when);
    ItemKeeps(r, o, handler);
    SortedCleanMeaning(r.tags, Norm);
    WhenKept(r);
  }

  lemma WhenKept(r: Resource)
    ensures ItemCore(r).when == TrimSpace(r.when)
  {
    hide TrimSpace, Norm;
  }

  lemma NormalItemUnchanged(r: Resource, o: Resource, handler: bool)
    requires NormalItem(r, handler)
    ensures ItemOk(r, handler)
    ensures ItemDone(r, o, handler) ==> o == r
  {
    hide KindOk, KindDone, NormalKind, Privileged, SortedClean, Clean, NormalMatrix, NormalLoop, MatrixOk;
    hide MatrixDone, LoopOk, LoopVarOf, TrimSpace, Norm, IsSortedClean;
    NormalMatrixUnchanged(r.matrix, o.matrix);
    NormalLoopUnchanged(r);
    NormalKindUnchanged(r);
    assert r.(command := Privileged(r.command)) == r;
    assert r.(when := TrimSpace(r.when), command := Privileged(r.command)) == r;
    if !handler { SortedCleanId(r.tags, Norm); }
  }

  // ----------------------------------------------------- whole configurations

  function HostNames(hosts: seq<Host>): set<string> {
    set h | h in hosts :: h.name
  }

  function Ids(rs: seq<Resource>): set<string> {
    set r | r in rs :: r.id
  }

  predicate UniqueHosts(hosts: seq<Host>) {
    forall i, j :: 0 <= i < j < |hosts| ==> hosts[i].name != hosts[j].name
  }

  predicate UniqueIds(rs: seq<Resource>) {
    forall i, j :: 0 <= i < j < |rs| ==> rs[i].id != rs[j].id
  }

  predicate Known(names: seq<string>, known: set<string>) {
    forall n :: n in names ==> n in known
  }

  /** The item runs, and is delegated to, known hosts. */
  predicate Placed(r: Resource, hosts: set<string>) {
    r.host in hosts && (Blank(r.delegateTo) || r.delegateTo in hosts)
  }

  predicate Linked(l: Links, ids: set<string>, handlers: set<string>) {
    && Known(l.dependsOn, ids) && Known(l.require, ids) && Known(l.subscribe, ids)
    && Known(l.before, ids) && Known(l.notify, ids) && Known(l.notifyHandlers, handlers)
  }

  function Notified(rs: seq<Resource>): set<string> {
    set r, target | r in rs && target in r.links.notify :: target
  }

  /** A resource that only refreshes has something that can trigger it. */
  predicate Triggered(r: Resource, notified: set<string>) {
    r.command.refreshOnly ==> r.links.subscribe != [] || r.id in notified
  }

  /** Unique ids and resolving references throughout. */
  predicate Closed(cfg: Config) {
    && UniqueHosts(cfg.hosts) && UniqueIds(cfg.resources) && UniqueIds(cfg.handlers)
    && (forall r :: r in cfg.resources ==>
          && Placed(r, HostNames(cfg.hosts)) && Linked(r.links, Ids(cfg.resources), Ids(cfg.handlers))
          && Triggered(r, Notified(cfg.resources)))
    && (forall r :: r in cfg.handlers ==> Placed(r, HostNames(cfg.hosts)))
  }

  predicate ItemsOk(rs: seq<Resource>, handler: bool) {
    forall i :: 0 <= i < |rs| ==> ItemOk(rs[i], handler)
  }

  /** Exactly the configurations that validation accepts. */
  predicate Acceptable(cfg: Config) {
    && !Blank(cfg.version) && ExecutionOk(cfg.execution) && (forall i :: 0 <= i < |cfg.hosts| ==> HostOk(cfg.hosts[i]))
    && ItemsOk(cfg.resources, false) && ItemsOk(cfg.handlers, true) && Closed(cfg)
  }

  ghost predicate ItemsDone(rs: seq<Resource>, os: seq<Resource>, handler: bool) {
    |os| == |rs| && forall i :: 0 <= i < |rs| ==> ItemDone(rs[i], os[i], handler)
  }

  ghost predicate HostsDone(hs: seq<Host>, os: seq<Host>) {
    |os| == |hs| && forall i :: 0 <= i < |hs| ==> HostDone(hs[i], os[i])
  }

  /** `out` is what validation can leave of an accepted configuration. */
  ghost predicate Done(cfg: Config, out: Config) {
    && out.version == cfg.version && out.execution == ExecutionDone(cfg.execution) && HostsDone(cfg.hosts, out.hosts)
    && ItemsDone(cfg.resources, out.resources, false) && ItemsDone(cfg.handlers, out.handlers, true)
  }

  ghost predicate NormalItems(rs: seq<Resource>, handler: bool) {
    forall i :: 0 <= i < |rs| ==> NormalItem(rs[i], handler)
  }

  ghost predicate Normal(cfg: Config) {
    && !Blank(cfg.version) && NormalExecution(cfg.execution)
    && (forall i :: 0 <= i < |cfg.hosts| ==> NormalHost(cfg.hosts[i]))
    && NormalItems(cfg.resources, false) && NormalItems(cfg.handlers, true) && Closed(cfg)
  }

  /** What references depend on. */
  predicate SameShape(r: Resource, o: Resource) {
    && o.id == r.id && o.host == r.host && o.delegateTo == r.delegateTo && o.links == r.links
    && o.command.refreshOnly == r.command.refreshOnly
  }

  predicate SameShapes(rs: seq<Resource>, os: seq<Resource>) {
    |os| == |rs| && forall i :: 0 <= i < |rs| ==> SameShape(rs[i], os[i])
  }

  lemma ShapesOf(rs: seq<Resource>, os: seq<Resource>, handler: bool)
    requires ItemsDone(rs, os, handler)
    ensures SameShapes(rs, os)
  {
    hide ItemDone;
    forall i | 0 <= i < |rs| ensures SameShape(rs[i], os[i]) { ItemKeeps(rs[i], os[i], handler); }
  }

  lemma SameIds(rs: seq<Resource>, os: seq<Resource>)
    requires SameShapes(rs, os)
    ensures Ids(os) == Ids(rs) && Notified(os) == Notified(rs) && UniqueIds(os) == UniqueIds(rs)
  {
    forall x ensures x in Ids(os) <==> x in Ids(rs) {
      if x in Ids(os) { var i :| 0 <= i < |os| && os[i].id == x; assert rs[i] in rs; }
      if x in Ids(rs) { var i :| 0 <= i < |rs| && rs[i].id == x; assert os[i] in os; }
    }
    NotifiedWithin(rs, os);
    NotifiedWithin(os, rs);
    assert forall i :: 0 <= i < |rs| ==> os[i].id == rs[i].id;
  }

  lemma NotifiedWithin(rs: seq<Resource>, os: seq<Resource>)
    requires |os| == |rs| && forall i :: 0 <= i < |rs| ==> rs[i].links == os[i].links
    ensures Notified(rs) <= Notified(os)
  {
    forall x | x in Notified(rs) ensures x in Notified(os) {
      var r :| r in rs && x in r.links.notify;
      var i :| 0 <= i < |rs| && rs[i] == r;
      assert os[i] in os && x in os[i].links.notify;
    }
  }

  lemma SameHosts(hs: seq<Host>, os: seq<Host>)
    requires |os| == |hs| && forall i :: 0 <= i < |hs| ==> os[i].name == hs[i].name
    ensures HostNames(os) == HostNames(hs) && UniqueHosts(os) == UniqueHosts(hs)
  {
    forall x ensures x in HostNames(os) <==> x in HostNames(hs) {
      if x in HostNames(os) { var i :| 0 <= i < |os| && os[i].name == x; assert hs[i] in hs; }
      if x in HostNames(hs) { var i :| 0 <= i < |hs| && hs[i].name == x; assert os[i] in os; }
    }
  }

  /** Whether references resolve does not depend on what validation changes. */
  lemma ClosedKept(cfg: Config, out: Config)
    requires Done(cfg, out)
    ensures Closed(out) <==> Closed(cfg)
  {
    hide ItemDone, ExecutionDone, Closed;
    forall i | 0 <= i < |cfg.hosts| ensures out.hosts[i].name == cfg.hosts[i].name {
      assert HostDone(cfg.hosts[i], out.hosts[i]);
    }
    ShapesOf(cfg.resources, out.resources, false);
    ShapesOf(cfg.handlers, out.handlers, true);
    hide ItemsDone, HostsDone;
    if Closed(cfg) { ClosedShapes(cfg, out); }
    if Closed(out) { ClosedShapes(out, cfg); }
  }

  lemma ClosedShapes(cfg: Config, out: Config)
    requires |out.hosts| == |cfg.hosts| && forall i :: 0 <= i < |cfg.hosts| ==> out.hosts[i].name == cfg.hosts[i].name
    requires SameShapes(cfg.resources, out.resources) && SameShapes(cfg.handlers, out.handlers) && Closed(cfg)
    ensures Closed(out)
  {
    hide Linked, Blank, Ids, Notified, HostNames, UniqueHosts, UniqueIds;
    SameHosts(cfg.hosts, out.hosts);
    SameIds(cfg.resources, out.resources);
    SameIds(cfg.handlers, out.handlers);
    forall r | r in out.resources
      ensures Placed(r, HostNames(out.hosts)) && Linked(r.links, Ids(out.resources), Ids(out.handlers))
      ensures Triggered(r, Notified(out.resources))
    {
      var i :| 0 <= i < |out.resources| && out.resources[i] == r;
      assert cfg.resources[i] in cfg.resources && SameShape(cfg.resources[i], r);
    }
    forall r | r in out.handlers ensures Placed(r, HostNames(out.hosts)) {
      var i :| 0 <= i < |out.handlers| && out.handlers[i] == r;
      assert cfg.handlers[i] in cfg.handlers && SameShape(cfg.handlers[i], r);
    }
  }

  lemma ItemsComeOutNormal(rs: seq<Resource>, os: seq<Resource>, handler: bool)
    requires ItemsOk(rs, handler) && ItemsDone(rs, os, handler)
    ensures NormalItems(os, handler)
  {
    hide ItemOk, ItemDone, NormalItem;
    forall i | 0 <= i < |os| ensures NormalItem(os[i], handler) { ItemComesOutNormal(rs[i], os[i], handler); }
  }

  /** What is accepted comes out normal. */
  lemma AcceptedComesOutNormal(cfg: Config, out: Config)
    requires Acceptable(cfg) && Done(cfg, out)
    ensures Normal(out)
  {
    hide HostOk, HostDone, NormalHost, Closed, ItemsOk, ItemsDone, NormalItems, TrimSpace;
    ClosedKept(cfg, out);
    ItemsComeOutNormal(cfg.resources, out.resources, false);
    ItemsComeOutNormal(cfg.handlers, out.handlers, true);
    forall i | 0 <= i < |out.hosts| ensures NormalHost(out.hosts[i]) { HostComesOutNormal(cfg.hosts[i], out.hosts[i]); }
  }

  lemma NormalItemsUnchanged(rs: seq<Resource>, os: seq<Resource>, handler: bool)
    requires NormalItems(rs, handler)
    ensures ItemsOk(rs, handler)
    ensures ItemsDone(rs, os, handler) ==> os == rs
  {
    hide ItemOk, ItemDone, NormalItem;
    forall i | 0 <= i < |rs| ensures ItemOk(rs[i], handler) { NormalItemUnchanged(rs[i], rs[i], handler); }
    if ItemsDone(rs, os, handler) {
      forall i | 0 <= i < |rs| ensures os[i] == rs[i] { NormalItemUnchanged(rs[i], os[i], handler); }
    }
  }

  lemma NormalHostsUnchanged(hs: seq<Host>, os: seq<Host>)
    requires forall i :: 0 <= i < |hs| ==> NormalHost(hs[i])
    ensures forall i :: 0 <= i < |hs| ==> HostOk(hs[i])
    ensures HostsDone(hs, os) ==> os == hs
  {
    hide HostOk, HostDone, NormalHost;
    forall i | 0 <= i < |hs| ensures HostOk(hs[i]) { NormalHostUnchanged(hs[i], hs[i]); }
    if HostsDone(hs, os) {
      forall i | 0 <= i < |hs| ensures os[i] == hs[i] { NormalHostUnchanged(hs[i], os[i]); }
    }
  }

  // --------------------------------------------------------- what is refused

  /** Every matrix key has a value that is not blank. */
  ghost predicate MatricesFilled(rs: seq<Resource>) {
    forall i, k :: 0 <= i < |rs| && k in rs[i].matrix ==> exists v :: v in rs[i].matrix[k] && !Blank(v)
  }

  lemma FilledIff(xs: seq<string>)
    ensures SortedClean(xs, TrimSpace) != [] <==> exists v :: v in xs && !Blank(v)
  {
    hide SortedClean;
    SortedCleanMeaning(xs, TrimSpace);
    var c := SortedClean(xs, TrimSpace);
    if c != [] {
      assert c[0] in Elems(c);
      var v :| v in xs && TrimSpace(v) != "" && TrimSpace(v) == c[0];
      assert !Blank(v);
    }
    if v :| v in xs && !Blank(v) { assert TrimSpace(v) in Elems(c); }
  }

  lemma HostWasOk(h: Host, o: Host)
    requires HostDone(h, o) && NormalHost(o)
    ensures HostOk(h)
  {
    hide TrimSpace, Norm, SortedClean, MapCleaned, IsCleanMap, TransportOk, CapabilityOk, TransportOf;
    SortedCleanMeaning(h.capabilities, Norm);
    forall c | c in h.capabilities ensures Blank(c) || CapabilityOk(Norm(c)) {
      assert !Blank(c) ==> Norm(c) in Elems(o.capabilities);
    }
  }

  lemma KindWasOk(r: Resource)
    requires KindOk(KindDone(r))
    ensures KindOk(r)
  {
    hide TrimSpace, IsSha256Digest;
  }

  lemma ItemWasOk(r: Resource, o: Resource, handler: bool)
    requires ItemDone(r, o, handler) && NormalItem(o, handler)
    requires forall k :: k in r.matrix ==> exists v :: v in r.matrix[k] && !Blank(v)
    ensures ItemOk(r, handler)
  {
    hide KindOk, KindDone, Privileged, SortedClean, TrimSpace, Norm, Simple, Clean;
    ItemKeeps(r, o, handler);
    forall k | k in r.matrix ensures !Blank(k) && SortedClean(r.matrix[k], TrimSpace) != [] {
      FilledIff(r.matrix[k]);
      assert TrimSpace(k) in o.matrix;
    }
    var core := r.(when := TrimSpace(r.when), command := Privileged(r.command));
    KindIgnores(r.(command := Privileged(r.command)), r.matrix, r.loop, r.loopVar, r.tags, core.when);
    KindIgnores(ItemCore(r), o.matrix, o.loop, o.loopVar, o.tags, o.when);
    KindWasOk(core);
  }

  lemma ItemsWereOk(rs: seq<Resource>, os: seq<Resource>, handler: bool)
    requires ItemsDone(rs, os, handler) && NormalItems(os, handler) && MatricesFilled(rs)
    ensures ItemsOk(rs, handler)
  {
    hide ItemOk, ItemDone, NormalItem;
    forall i | 0 <= i < |rs| ensures ItemOk(rs[i], handler) { ItemWasOk(rs[i], os[i], handler); }
  }

  lemma ItemsAreFilled(rs: seq<Resource>, handler: bool)
    requires ItemsOk(rs, handler)
    ensures MatricesFilled(rs)
  {
    hide KindOk, LoopOk, SortedClean;
    forall i, k | 0 <= i < |rs| && k in rs[i].matrix ensures exists v :: v in rs[i].matrix[k] && !Blank(v) {
      assert ItemOk(rs[i], handler);
      FilledIff(rs[i].matrix[k]);
    }
  }

  /** A configuration is refused exactly when it has a matrix key without values or would not come out normal. */
  lemma AcceptedIff(cfg: Config, out: Config)
    requires Done(cfg, out)
    ensures Acceptable(cfg) <==> Normal(out) && MatricesFilled(cfg.resources) && MatricesFilled(cfg.handlers)
  {
    hide HostOk, HostDone, NormalHost, Closed, ItemsOk, ItemsDone, NormalItems, MatricesFilled, TrimSpace;
    ClosedKept(cfg, out);
    if Acceptable(cfg) {
      AcceptedComesOutNormal(cfg, out);
      ItemsAreFilled(cfg.resources, false);
      ItemsAreFilled(cfg.handlers, true);
    }
    if Normal(out) && MatricesFilled(cfg.resources) && MatricesFilled(cfg.handlers) {
      ItemsWereOk(cfg.resources, out.resources, false);
      ItemsWereOk(cfg.handlers, out.handlers, true);
      forall i | 0 <= i < |cfg.hosts| ensures HostOk(cfg.hosts[i]) { HostWasOk(cfg.hosts[i], out.hosts[i]); }
    }
  }

  // -------------------------------------------------------- the rules, spelled out

  /** What references have to resolve to. */
  lemma ClosedMeans(cfg: Config)
    ensures Closed(cfg) <==>
      && (forall i, j :: 0 <= i < j < |cfg.hosts| ==> cfg.hosts[i].name != cfg.hosts[j].name)
      && (forall i, j :: 0 <= i < j < |cfg.resources| ==> cfg.resources[i].id != cfg.resources[j].id)
      && (forall i, j :: 0 <= i < j < |cfg.handlers| ==> cfg.handlers[i].id != cfg.handlers[j].id)
      && (forall r :: r in cfg.resources || r in cfg.handlers ==>
            && IsHost(cfg, r.host) && (Blank(r.delegateTo) || IsHost(cfg, r.delegateTo)))
      && (forall r :: r in cfg.resources ==>
            && (forall n :: n in r.links.dependsOn ==> IsId(cfg.resources, n))
            && (forall n :: n in r.links.require ==> IsId(cfg.resources, n))
            && (forall n :: n in r.links.subscribe ==> IsId(cfg.resources, n))
            && (forall n :: n in r.links.before ==> IsId(cfg.resources, n))
            && (forall n :: n in r.links.notify ==> IsId(cfg.resources, n))
            && (forall n :: n in r.links.notifyHandlers ==> IsId(cfg.handlers, n))
            && (r.command.refreshOnly ==>
                 r.links.subscribe != [] || exists q :: q in cfg.resources && r.id in q.links.notify))
  {
    hide Blank;
    assert forall n :: n in HostNames(cfg.hosts) <==> IsHost(cfg, n);
    assert forall n :: n in Ids(cfg.resources) <==> IsId(cfg.resources, n);
    assert forall n :: n in Ids(cfg.handlers) <==> IsId(cfg.handlers, n);
    hide HostNames, Ids;
  }

  ghost predicate IsHost(cfg: Config, name: string) {
    exists h :: h in cfg.hosts && h.name == name
  }

  ghost predicate IsId(rs: seq<Resource>, id: string) {
    exists r :: r in rs && r.id == id
  }

  /** A digest is the tag and 64 hexadecimal digits, in either case and with white space around it allowed. */
  lemma DigestMeans(raw: string)
    ensures IsSha256Digest(raw) <==>
      exists hex: string :: |hex| == 64 && (forall i :: 0 <= i < 64 ==> hex[i] in "0123456789abcdef")
        && TrimSpace(ToLower(raw)) == "sha256:" + hex
  {
    hide TrimSpace;
    var v := TrimSpace(ToLower(raw));
    if IsSha256Digest(raw) {
      var hex := v[7..];
      assert v == "sha256:" + hex;
      TrimmedLower(raw);
      forall i | 0 <= i < 64 ensures hex[i] in "0123456789abcdef" { HexListed(v[i + 7]); }
    }
    if hex: string :| |hex| == 64 && (forall i :: 0 <= i < 64 ==> hex[i] in "0123456789abcdef") && v == "sha256:" + hex {
      assert v[..7] == "sha256:";
      forall i | 7 <= i < 71 ensures IsHexChar(v[i]) {
        assert v[i] == hex[i - 7];
        HexListed(v[i]);
      }
    }
  }

  lemma HexListed(c: char)
    ensures c in "0123456789abcdef" <==> IsHexChar(c) && LowerChar(c) == c
  {
    var s := "0123456789abcdef";
    assert s[0] == '0' && s[1] == '1' && s[2] == '2' && s[3] == '3' && s[4] == '4' && s[5] == '5' && s[6] == '6' && s[7] == '7';
    assert s[8] == '8' && s[9] == '9' && s[10] == 'a' && s[11] == 'b' && s[12] == 'c' && s[13] == 'd' && s[14] == 'e' && s[15] == 'f';
  }

  lemma TrimmedLower(raw: string)
    ensures Lowered(TrimSpace(ToLower(raw)))
  {
    var t := ToLower(raw);
    var i, j := TrimSpaceCuts(t);
    assert TrimSpace(t) == t[i..j];
  }

  /** The rules for resources and handlers, rule by rule across the kinds. */
  predicate KindRules(r: Resource) {
    var c, f := r.command, r.file;
    && r.kind in {"file", "command", "registry", "scheduled_task"}
    && (c.become ==> r.kind == "command")
    && (!Blank(f.checksum) || !Blank(f.signature) || !Blank(f.signingKey) ==> r.kind == "file")
    && (r.kind == "file" ==>
          && !Blank(f.path) && (!Blank(f.checksum) ==> IsSha256Digest(TrimSpace(f.checksum)))
          && (Blank(f.signature) == Blank(f.signingKey))
          && forall x :: x in {c.onlyIf, c.unless, c.refreshCommand, c.rescueCommand, c.alwaysCommand, c.retryBackoff} ==> Blank(x))
    && (r.kind == "file" ==> c.retryJitterSeconds == 0)
    && (r.kind == "command" ==>
          && !Blank(c.command) && c.retries >= 0 && c.retryDelaySeconds >= 0 && c.retryJitterSeconds >= 0
          && (Blank(c.retryBackoff) || Norm(c.retryBackoff) in ["constant", "linear", "exponential"]))
    && (r.kind == "registry" ==>
          !Blank(r.registry.key) && (Blank(r.registry.valueType) || Norm(r.registry.valueType) in ["string", "dword", "qword"]))
    && (r.kind == "scheduled_task" ==> !Blank(r.task.name) && !Blank(r.task.command))
  }

  /** These rules, on the resource once naming a user counts as becoming, are exactly what its kind asks for. */
  lemma KindOkMeans(r: Resource)
    ensures KindOk(r) <==> KindRules(r)
  {
    hide TrimSpace, IsSha256Digest;
  }

  /** Which hosts are well formed. */
  lemma HostOkMeans(h: Host)
    ensures HostOk(h) <==>
      && !Blank(h.name) && 0 <= h.port < 65536 && 0 <= h.jumpPort < 65536
      && (|| h.transport == "" || Norm(h.transport) in ["local", "ssh", "winrm", "auto"]
          || (|Norm(h.transport)| >= 7 && Norm(h.transport)[..7] == "plugin/"))
      && forall c :: c in h.capabilities && !Blank(c) ==> Norm(c) in ["local", "ssh", "winrm"]
  {
    hide TrimSpace;
    assert Trimmed("local") && Lowered("local");
  }

  /** Which execution settings are accepted. */
  lemma ExecutionOkMeans(e: Execution)
    ensures ExecutionOk(e) <==>
      && (Blank(e.strategy) || Norm(e.strategy) in ["linear", "free", "serial"]) && !(e.serial < 0)
      && !(e.maxFailPercentage < 0 || e.maxFailPercentage > 100)
      && (Blank(e.failureDomain) || Norm(e.failureDomain) in ["rack", "zone", "region"])
  {
    hide TrimSpace;
  }

  /** Which loops are accepted: none at all, or one under a simple name that no matrix key trims to. */
  lemma LoopOkMeans(r: Resource)
    ensures LoopOk(r) <==>
      var name := if Blank(r.loopVar) then "item" else TrimSpace(r.loopVar);
      || (forall v :: v in r.loop ==> Blank(v))
      || (&& (forall i :: 0 <= i < |name| ==> name[i] != '.' && name[i] != ' ')
          && forall k :: k in r.matrix ==> TrimSpace(k) != name)
  {
    hide TrimSpace, Clean;
    LoopKept(r.loop);
  }

  // ---------------------------------------------------------------- defaults

  /** A host without a transport is local; any other keeps its transport, trimmed and in lower case. */
  lemma HostDefaults(h: Host, o: Host)
    requires HostDone(h, o)
    ensures o.transport == if h.transport == "" then "local" else Norm(h.transport)
  {
    hide TrimSpace, SortedClean, MapCleaned;
    assert Trimmed("local") && Lowered("local");
  }

  /**
   The defaults of a resource or handler: a loop runs under "item", a registry value is a string, a task runs daily, and
   naming a user to become means becoming; what was given is only trimmed, and types are put in lower case.
   */
  lemma ItemDefaults(r: Resource, o: Resource, handler: bool)
    requires ItemDone(r, o, handler)
    ensures o.loop == [] ==> o.loopVar == ""
    ensures o.loop != [] ==> o.loopVar == if Blank(r.loopVar) then "item" else TrimSpace(r.loopVar)
    ensures o.loop != [] <==> exists v :: v in r.loop && !Blank(v)
    ensures r.kind == "registry" ==>
      && o.registry.valueType == (if Blank(r.registry.valueType) then "string" else Norm(r.registry.valueType))
      && o.registry.key == TrimSpace(r.registry.key) && o.registry.value == r.registry.value
    ensures r.kind == "scheduled_task" ==>
      && o.task.schedule == (if Blank(r.task.schedule) then "@daily" else TrimSpace(r.task.schedule))
      && o.task.name == TrimSpace(r.task.name) && o.task.command == TrimSpace(r.task.command)
    ensures o.command.become == (r.command.become || !Blank(r.command.becomeUser))
    ensures o.command.becomeUser == TrimSpace(r.command.becomeUser)
  {
    hide TrimSpace, SortedClean, Clean, Norm;
    LoopKept(r.loop);
  }

  lemma LoopKept(xs: seq<string>)
    ensures Clean(xs, TrimSpace) != [] <==> exists v :: v in xs && !Blank(v)
  {
    hide Clean, TrimSpace;
    CleanMembers(xs, TrimSpace);
    var c := Clean(xs, TrimSpace);
    if c != [] {
      assert c[0] in c;
      var v :| v in xs && TrimSpace(v) == c[0];
      assert !Blank(v);
    }
    if v :| v in xs && !Blank(v) { assert TrimSpace(v) in c; }
  }

  /** Normal configurations are accepted, and left exactly as they are. */
  lemma NormalUnchanged(cfg: Config, out: Config)
    requires Normal(cfg)
    ensures Acceptable(cfg)
    ensures Done(cfg, out) ==> out == cfg
  {
    hide HostOk, HostsDone, NormalHost, Closed, ItemsOk, ItemsDone, NormalItems, TrimSpace;
    NormalItemsUnchanged(cfg.resources, out.resources, false);
    NormalItemsUnchanged(cfg.handlers, out.handlers, true);
    NormalHostsUnchanged(cfg.hosts, out.hosts);
  }

  /** Validating what was validated succeeds and changes nothing. */
  lemma ValidateIdempotent(cfg: Config, out: Config, again: Config)
    requires Acceptable(cfg) && Done(cfg, out)
    ensures Acceptable(out)
    ensures Done(out, again) ==> again == out
  {
    hide Acceptable, Done, Normal;
    AcceptedComesOutNormal(cfg, out);
    NormalUnchanged(out, again);
  }

  /** A configuration is accepted unchanged exactly when it is normal. */
  lemma NormalIffFixed(cfg: Config)
    ensures Normal(cfg) <==> Acceptable(cfg) && Done(cfg, cfg)
  {
    hide Acceptable, Normal;
    if Acceptable(cfg) && Done(cfg, cfg) { AcceptedComesOutNormal(cfg, cfg); }
    if Normal(cfg) {
      NormalUnchanged(cfg, cfg);
      NormalIsDone(cfg);
    }
  }

  lemma NormalIsDone(cfg: Config)
    requires Normal(cfg)
    ensures Done(cfg, cfg)
  {
    hide Closed, NormalHost, NormalItem, HostDone, ItemDone, TrimSpace;
    forall i | 0 <= i < |cfg.hosts| ensures HostDone(cfg.hosts[i], cfg.hosts[i]) { NormalHostIsDone(cfg.hosts[i]); }
    forall i | 0 <= i < |cfg.resources| ensures ItemDone(cfg.resources[i], cfg.resources[i], false) {
      NormalItemIsDone(cfg.resources[i], false);
    }
    forall i | 0 <= i < |cfg.handlers| ensures ItemDone(cfg.handlers[i], cfg.handlers[i], true) {
      NormalItemIsDone(cfg.handlers[i], true);
    }
  }

  lemma NormalHostIsDone(h: Host)
    requires NormalHost(h)
    ensures HostDone(h, h)
  {
    hide TrimSpace, SortedClean, TransportOk, CapabilityOk;
    SortedCleanId(h.capabilities, Norm);
    SortedCleanId(h.roles, Norm);
    CleanMapIsDone(h.labels);
    CleanMapIsDone(h.topology);
  }

  lemma CleanMapIsDone(m: map<string, string>)
    requires IsCleanMap(m, Norm)
    ensures MapCleaned(m, m, Norm)
  {
    hide Norm, TrimSpace;
    forall j | j in m ensures exists k :: k in m && Norm(k) == j && m[j] == TrimSpace(m[k]) {
      assert Norm(j) == j && TrimSpace(m[j]) == m[j];
    }
  }

  lemma NormalItemIsDone(r: Resource, handler: bool)
    requires NormalItem(r, handler)
    ensures ItemDone(r, r, handler)
  {
    hide KindOk, KindDone, NormalKind, Privileged, SortedClean, Clean, NormalLoop, LoopOk, LoopVarOf;
    hide TrimSpace, Norm, IsSortedClean;
    NormalLoopUnchanged(r);
    NormalKindUnchanged(r);
    assert r.(when := TrimSpace(r.when), command := Privileged(r.command)) == r;
    if !handler { SortedCleanId(r.tags, Norm); }
    forall j | j in r.matrix ensures TrimSpace(j) == j && r.matrix[j] == SortedClean(r.matrix[j], TrimSpace) {
      SortedCleanId(r.matrix[j], TrimSpace);
    }
  }
}
