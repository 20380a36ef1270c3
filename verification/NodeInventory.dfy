/**
 The node store and the inventory section of export and import
 (internal/control/node_lifecycle.go, internal/control/inventory_variable_portability.go).
 Main results: exporting and importing into any store restores every node's settings, and its status unless a
 bootstrap item meets a node that has moved on; a dry run changes nothing and predicts the counts of the real
 import exactly when no status is bad and no new name repeats.
 */
module NodeInventory {
  import opened Wrappers
  import opened Text
  import opened Normalize

  datatype Settings = Settings(
    address: string, transport: string, labels: map<string, string>, roles: seq<string>,
    topology: map<string, string>, source: string)

  datatype Change = Change(status: string, reason: string, time: int)

  datatype Node = Node(
    name: string, settings: Settings, status: string, enrolledAt: int, updatedAt: int, lastSeenAt: int,
    history: seq<Change>)

  type State = map<string, Node>

  const BOOTSTRAP := "bootstrap"

  predicate IsStatus(status: string) {
    status in {BOOTSTRAP, "active", "quarantined", "decommissioned"}
  }

  /** What normalising settings can give; see `MapCleaned` for labels that clean to the same key. */
  ghost predicate Settled(raw: Settings, out: Settings) {
    && out.address == TrimSpace(raw.address) && out.transport == Norm(raw.transport)
    && MapCleaned(raw.labels, out.labels, Norm) && MapCleaned(raw.topology, out.topology, Norm)
    && out.roles == SortedClean(raw.roles, Norm)
    && out.source == if Blank(raw.source) then "api" else TrimSpace(raw.source)
  }

  ghost predicate IsSettled(x: Settings) {
    && Trimmed(x.address) && Norm(x.transport) == x.transport
    && IsCleanMap(x.labels, Norm) && IsCleanMap(x.topology, Norm) && IsSortedClean(x.roles, Norm)
    && Trimmed(x.source) && x.source != ""
  }

  /** Settled settings are exactly those normalising leaves alone. */
  lemma SettledIsSettled(raw: Settings, out: Settings)
    requires Settled(raw, out)
    ensures IsSettled(out)
    ensures IsSettled(raw) ==> out == raw
  {
    hide SortedClean;
    hide TrimSpace;
    hide IsCleanMap;
    hide MapCleaned;
    MapCleanedIsClean(raw.labels, out.labels, Norm);
    MapCleanedIsClean(raw.topology, out.topology, Norm);
    SortedCleanMeaning(raw.roles, Norm);
    if IsSettled(raw) {
      CleanMapId(raw.labels, out.labels, Norm);
      CleanMapId(raw.topology, out.topology, Norm);
      SortedCleanId(raw.roles, Norm);
    }
  }

  // ------------------------------------------------------------- operations

  datatype Error = NameRequired | BadStatus | NotFound

  /** Enrolling under a name that is trimmed and not blank. */
  function Enroll(s: State, name: string, conf: Settings, now: int): State {
    if name in s then s[name := s[name].(settings := conf, updatedAt := now)]
    else s[name := Node(name, conf, BOOTSTRAP, now, now, 0, [Change(BOOTSTRAP, "auto-enrolled", now)])]
  }

  function SetStatus(s: State, rawName: string, rawStatus: string, reason: string, now: int): (State, Option<Error>) {
    var name, status := TrimSpace(rawName), Norm(rawStatus);
    if name == "" then (s, Some(NameRequired))
    else if !IsStatus(status) then (s, Some(BadStatus))
    else if name !in s then (s, Some(NotFound))
    else
      var change := Change(status, TrimSpace(reason), now);
      (s[name := s[name].(status := status, updatedAt := now, history := s[name].history + [change])], None)
  }

  function Heartbeat(s: State, rawName: string, now: int): State {
    var name := TrimSpace(rawName);
    if name in s then s[name := s[name].(lastSeenAt := now, updatedAt := now)] else s
  }

  datatype Verdict = Imported | Updated | Failed

  const IMPORT_REASON := "imported from inventory bundle"

  /** One item of a real import; `conf` is its normalised settings. */
  function ImportItem(s: State, item: Node, conf: Settings, now: int): (State, Verdict) {
    var name, desired := TrimSpace(item.name), TrimSpace(item.status);
    if name == "" then (s, Failed)
    else
      var t, verdict := Enroll(s, name, conf, now), if name in s then Updated else Imported;
      if desired == "" || desired == BOOTSTRAP then (t, verdict)
      else
        var (u, error) := SetStatus(t, name, desired, IMPORT_REASON, now);
        (u, if error.Some? then Failed else verdict)
  }

  function Import(s: State, items: seq<Node>, sets: seq<Settings>, now: int): (State, seq<Verdict>)
    requires |sets| == |items|
  {
    if items == [] then (s, [])
    else
      var n := |items| - 1;
      var (t, verdicts) := Import(s, items[..n], sets[..n], now);
      var (u, verdict) := ImportItem(t, items[n], sets[n], now);
      (u, verdicts + [verdict])
  }

  function Preview(s: State, item: Node): Verdict {
    var name := TrimSpace(item.name);
    if name == "" then Failed else if name in s then Updated else Imported
  }

  function DryRun(s: State, items: seq<Node>): (r: seq<Verdict>)
    ensures |r| == |items| && forall i :: 0 <= i < |items| ==> r[i] == Preview(s, items[i])
  {
    seq(|items|, i requires 0 <= i < |items| => Preview(s, items[i]))
  }

  ghost predicate AllSettled(items: seq<Node>, sets: seq<Settings>) {
    |sets| == |items| && forall i :: 0 <= i < |items| ==> Settled(items[i].settings, sets[i])
  }

  // ------------------------------------------------------------------- runs

  datatype Op =
    | EnrollOp(name: string, raw: Settings, conf: Settings, now: int)
    | SetStatusOp(name: string, status: string, reason: string, now: int)
    | HeartbeatOp(name: string, now: int)
    | ImportOp(item: Node, conf: Settings, now: int)

  /** The normalised settings that an operation carries are ones its raw settings can give. */
  ghost predicate OpOk(op: Op) {
    match op
    case EnrollOp(_, raw, conf, _) => Settled(raw, conf)
    case ImportOp(item, conf, _) => Settled(item.settings, conf)
    case _ => true
  }

  function Step(s: State, op: Op): State {
    match op
    case EnrollOp(name, raw, conf, now) => if Blank(name) then s else Enroll(s, TrimSpace(name), conf, now)
    case SetStatusOp(name, status, reason, now) => SetStatus(s, name, status, reason, now).0
    case HeartbeatOp(name, now) => Heartbeat(s, name, now)
    case ImportOp(item, conf, now) => ImportItem(s, item, conf, now).0
  }

  function Run(ops: seq<Op>): State {
    if ops == [] then map[] else Step(Run(ops[..|ops| - 1]), ops[|ops| - 1])
  }

  /** Filed under its trimmed name, normalised, and in the status its history ends with. */
  ghost predicate NodeOk(name: string, n: Node) {
    && n.name == name && name != "" && Trimmed(name) && IsSettled(n.settings) && IsStatus(n.status)
    && n.history != [] && n.history[0].status == BOOTSTRAP && n.history[|n.history| - 1].status == n.status
    && forall i :: 0 <= i < |n.history| ==> IsStatus(n.history[i].status)
  }

  ghost predicate Inv(s: State) {
    forall name :: name in s ==> NodeOk(name, s[name])
  }

  lemma EnrollKeeps(s: State, name: string, conf: Settings, now: int)
    requires Inv(s) && IsSettled(conf) && name != "" && Trimmed(name)
    ensures Inv(Enroll(s, name, conf, now))
  {
    hide IsSettled;
    var t := Enroll(s, name, conf, now);
    forall k | k in t ensures NodeOk(k, t[k]) { assert k in s ==> NodeOk(k, s[k]); }
  }

  lemma SetStatusKeeps(s: State, name: string, status: string, reason: string, now: int)
    requires Inv(s)
    ensures Inv(SetStatus(s, name, status, reason, now).0)
  {
    hide IsSettled;
    hide TrimSpace;
    hide Norm;
    hide IsStatus;
    var t := SetStatus(s, name, status, reason, now).0;
    forall k | k in t ensures NodeOk(k, t[k]) { assert NodeOk(k, s[k]); }
  }

  lemma HeartbeatKeeps(s: State, name: string, now: int)
    requires Inv(s)
    ensures Inv(Heartbeat(s, name, now))
  {
    hide IsSettled;
    hide TrimSpace;
    hide IsStatus;
    var t := Heartbeat(s, name, now);
    forall k | k in t ensures NodeOk(k, t[k]) { assert NodeOk(k, s[k]); }
  }

  lemma ImportItemKeeps(s: State, item: Node, conf: Settings, now: int)
    requires Inv(s) && IsSettled(conf)
    ensures Inv(ImportItem(s, item, conf, now).0)
  {
    hide Inv;
    hide Enroll;
    hide SetStatus;
    var name := TrimSpace(item.name);
    if name != "" {
      EnrollKeeps(s, name, conf, now);
      SetStatusKeeps(Enroll(s, name, conf, now), name, TrimSpace(item.status), IMPORT_REASON, now);
    }
  }

  lemma StepKeeps(s: State, op: Op)
    requires Inv(s) && OpOk(op)
    ensures Inv(Step(s, op))
  {
    hide Inv;
    hide Settled;
    hide IsSettled;
    match op
    case EnrollOp(name, raw, conf, now) =>
      SettledIsSettled(raw, conf);
      if !Blank(name) { EnrollKeeps(s, TrimSpace(name), conf, now); }
    case SetStatusOp(name, status, reason, now) => SetStatusKeeps(s, name, status, reason, now);
    case HeartbeatOp(name, now) => HeartbeatKeeps(s, name, now);
    case ImportOp(item, conf, now) =>
      SettledIsSettled(item.settings, conf);
      ImportItemKeeps(s, item, conf, now);
  }

  /** In every run nodes stay normalised and each node's status is the last entry of its history. */
  lemma {:induction false} RunsKeep(ops: seq<Op>)
    requires forall i :: 0 <= i < |ops| ==> OpOk(ops[i])
    ensures Inv(Run(ops))
  {
    if ops != [] {
      RunsKeep(ops[..|ops| - 1]);
      StepKeeps(Run(ops[..|ops| - 1]), ops[|ops| - 1]);
    }
  }

  // ------------------------------------------------------------- round trip

  /** The names a status filter selects; the blank filter selects all. */
  ghost function Selected(s: State, filter: string): set<string> {
    set name | name in s && (Blank(filter) || s[name].status == Norm(filter))
  }

  function Exported(n: Node, withHistory: bool): Node {
    if withHistory then n else n.(history := [])
  }

  /** The selected nodes in ascending order of name. */
  ghost predicate IsExport(s: State, filter: string, withHistory: bool, items: seq<Node>) {
    var names := SortedElems(Selected(s, filter));
    && |items| == |names|
    && forall i :: 0 <= i < |names| ==> names[i] in s && items[i] == Exported(s[names[i]], withHistory)
  }

  /** An item as export delivers it: normalised already. */
  ghost predicate ItemOk(item: Node) {
    item.name != "" && Trimmed(item.name) && IsSettled(item.settings) && IsStatus(item.status)
  }

  predicate DistinctNames(items: seq<Node>) {
    forall i, j :: 0 <= i < j < |items| ==> items[i].name != items[j].name
  }

  /** The status a node ends up with: a bootstrap item does not reset a node that is already there. */
  function StatusAfter(t: State, item: Node): string {
    if item.status == BOOTSTRAP && item.name in t then t[item.name].status else item.status
  }

  lemma StatusIsNormal(status: string)
    requires IsStatus(status)
    ensures Norm(status) == status && TrimSpace(status) == status && status != ""
  {
    assert Trimmed(status) && Lowered(status);
  }

  /** One clean item, imported. */
  lemma ImportItemExact(t: State, item: Node, conf: Settings, now: int)
    requires ItemOk(item) && Settled(item.settings, conf)
    ensures var (u, verdict) := ImportItem(t, item, conf, now);
            && verdict == (if item.name in t then Updated else Imported)
            && item.name in u && u == t[item.name := u[item.name]] && u[item.name].name == (if item.name in t then t[item.name].name else item.name)
            && u[item.name].settings == item.settings && u[item.name].status == StatusAfter(t, item)
  {
    hide Settled;
    hide IsSettled;
    hide TrimSpace;
    hide Norm;
    hide IsStatus;
    SettledIsSettled(item.settings, conf);
    StatusIsNormal(item.status);
  }

  function ItemNames(items: seq<Node>): set<string> {
    set item | item in items :: item.name
  }

  lemma ItemNamesSnoc(items: seq<Node>)
    requires items != [] && DistinctNames(items)
    ensures var front, last := items[..|items| - 1], items[|items| - 1];
            ItemNames(items) == ItemNames(front) + {last.name} && last.name !in ItemNames(front)
  {
    assert items == items[..|items| - 1] + [items[|items| - 1]];
  }

  /** The outcome of importing clean items with distinct names into any store. */
  ghost predicate Restored(t: State, items: seq<Node>, u: State, verdicts: seq<Verdict>) {
    && |verdicts| == |items|
    && (forall i :: 0 <= i < |items| ==>
          && items[i].name in u && u[items[i].name].settings == items[i].settings
          && u[items[i].name].status == StatusAfter(t, items[i])
          && verdicts[i] == if items[i].name in t then Updated else Imported)
    && u.Keys == t.Keys + ItemNames(items)
    && (forall name :: name in t && name !in ItemNames(items) ==> u[name] == t[name])
  }

  lemma RestoredNext(t: State, items: seq<Node>, u: State, verdicts: seq<Verdict>, w: State, verdict: Verdict)
    requires items != [] && DistinctNames(items)
    requires Restored(t, items[..|items| - 1], u, verdicts)
    requires var item := items[|items| - 1];
             && item.name in w && w == u[item.name := w[item.name]]
             && w[item.name].settings == item.settings && w[item.name].status == StatusAfter(u, item)
             && verdict == if item.name in u then Updated else Imported
    ensures Restored(t, items, w, verdicts + [verdict])
  {
    hide ItemNames;
    ItemNamesSnoc(items);
    var front, item := items[..|items| - 1], items[|items| - 1];
    assert forall i :: 0 <= i < |front| ==> front[i] == items[i] && front[i].name != item.name;
    assert item.name in u <==> item.name in t;
  }

  lemma {:induction false} ImportRestores(t: State, items: seq<Node>, sets: seq<Settings>, now: int)
    requires AllSettled(items, sets) && DistinctNames(items)
    requires forall i :: 0 <= i < |items| ==> ItemOk(items[i])
    ensures var (u, verdicts) := Import(t, items, sets, now); Restored(t, items, u, verdicts)
  {
    hide ItemOk;
    hide Settled;
    hide Restored;
    hide ImportItem;
    if items == [] {
      RestoredEmpty(t);
    } else {
      var n := |items| - 1;
      ImportRestores(t, items[..n], sets[..n], now);
      var (u, verdicts) := Import(t, items[..n], sets[..n], now);
      ImportItemExact(u, items[n], sets[n], now);
      var (w, verdict) := ImportItem(u, items[n], sets[n], now);
      RestoredNext(t, items, u, verdicts, w, verdict);
    }
  }

  lemma RestoredEmpty(t: State)
    ensures Restored(t, [], t, [])
  {}

  lemma ExportedItems(s: State, filter: string, withHistory: bool, items: seq<Node>)
    requires Inv(s) && IsExport(s, filter, withHistory, items)
    ensures DistinctNames(items)
    ensures forall i :: 0 <= i < |items| ==>
              && ItemOk(items[i]) && items[i].name in Selected(s, filter)
              && items[i] == Exported(s[items[i].name], withHistory)
    ensures ItemNames(items) == Selected(s, filter)
  {
    hide IsSettled;
    hide IsStatus;
    hide Selected;
    hide Ascending;
    hide Elems;
    var names := SortedElems(Selected(s, filter));
    SelectedListing(s, filter);
    hide NodeOk;
    hide ItemOk;
    hide Exported;
    forall i | 0 <= i < |names| ensures items[i].name == names[i] && ItemOk(items[i]) {
      ExportedItem(names[i], s[names[i]], withHistory);
    }
    forall name | name in Selected(s, filter) ensures name in ItemNames(items) {
      var i :| 0 <= i < |names| && names[i] == name;
      assert items[i] in items;
    }
  }

  lemma ExportedItem(name: string, n: Node, withHistory: bool)
    requires NodeOk(name, n)
    ensures ItemOk(Exported(n, withHistory)) && Exported(n, withHistory).name == name
  {
    hide IsSettled;
    hide IsStatus;
  }

  lemma SelectedListing(s: State, filter: string)
    ensures var names := SortedElems(Selected(s, filter));
            && NoDup(names) && (forall i :: 0 <= i < |names| ==> names[i] in s && names[i] in Selected(s, filter))
            && forall name :: name in Selected(s, filter) ==> name in names
  {
    var names := SortedElems(Selected(s, filter));
    AscendingSortId(names);
    forall i | 0 <= i < |names| ensures names[i] in Selected(s, filter) { assert names[i] in Elems(names); }
  }

  /**
   Importing an export into any store restores the settings of every selected node, leaves all other nodes as
   they were, and restores the status exactly unless a bootstrap item meets a node in another status.
   */
  lemma ExportImport(
    s: State, filter: string, withHistory: bool, items: seq<Node>, t: State, sets: seq<Settings>, now: int)
    requires Inv(s) && IsExport(s, filter, withHistory, items) && AllSettled(items, sets)
    ensures var u := Import(t, items, sets, now).0;
            && u.Keys == t.Keys + Selected(s, filter)
            && (forall name :: name in t && name !in Selected(s, filter) ==> u[name] == t[name])
            && forall name :: name in Selected(s, filter) ==>
                 && u[name].settings == s[name].settings
                 && (u[name].status == s[name].status <==>
                     !(s[name].status == BOOTSTRAP && name in t && t[name].status != BOOTSTRAP))
  {
    hide Import;
    hide IsExport;
    hide Inv;
    hide ItemOk;
    hide Settled;
    ExportedItems(s, filter, withHistory, items);
    ImportRestores(t, items, sets, now);
    var (u, verdicts) := Import(t, items, sets, now);
    var picked := Selected(s, filter);
    forall name | name in picked
      ensures name in u && u[name].settings == s[name].settings
      ensures u[name].status == s[name].status <==> !(s[name].status == BOOTSTRAP && name in t && t[name].status != BOOTSTRAP)
    {
      assert name in ItemNames(items);
      var item :| item in items && item.name == name;
      var i :| 0 <= i < |items| && items[i] == item;
      assert items[i].settings == s[name].settings && items[i].status == s[name].status;
    }
  }

  /** Exporting everything and importing into an empty store rebuilds every node, all of them as new. */
  lemma ExportImportRoundTrip(s: State, withHistory: bool, items: seq<Node>, sets: seq<Settings>, now: int)
    requires Inv(s) && IsExport(s, "", withHistory, items) && AllSettled(items, sets)
    ensures var (u, verdicts) := Import(map[], items, sets, now);
            && u.Keys == s.Keys && |verdicts| == |s|
            && (forall i :: 0 <= i < |verdicts| ==> verdicts[i] == Imported)
            && forall name :: name in s ==>
                 u[name].name == name && u[name].settings == s[name].settings && u[name].status == s[name].status
  {
    hide Import;
    hide Inv;
    hide ItemOk;
    hide Settled;
    hide IsExport;
    hide Restored;
    hide Selected;
    hide ItemNames;
    ExportImport(s, "", withHistory, items, map[], sets, now);
    ExportedItems(s, "", withHistory, items);
    ImportRestores(map[], items, sets, now);
    ExportSize(s, withHistory, items);
    var (u, verdicts) := Import(map[], items, sets, now);
    AllNew(items, u, verdicts);
    EmptyInv();
    ImportKeeps(map[], items, sets, now);
    forall name | name in s ensures u[name].name == name { KeptName(u, name); }
  }

  lemma EmptyInv()
    ensures Inv(map[])
  {}

  lemma ExportSize(s: State, withHistory: bool, items: seq<Node>)
    requires IsExport(s, "", withHistory, items)
    ensures |items| == |s| && Selected(s, "") == s.Keys
  {
    assert Selected(s, "") == s.Keys;
    assert |s| == |s.Keys|;
  }

  lemma AllNew(items: seq<Node>, u: State, verdicts: seq<Verdict>)
    requires Restored(map[], items, u, verdicts)
    ensures |verdicts| == |items| && forall i :: 0 <= i < |verdicts| ==> verdicts[i] == Imported
  {}

  lemma KeptName(u: State, name: string)
    requires Inv(u) && name in u
    ensures u[name].name == name
  {
    hide IsSettled;
    assert NodeOk(name, u[name]);
  }

  lemma {:induction false} ImportKeeps(t: State, items: seq<Node>, sets: seq<Settings>, now: int)
    requires Inv(t) && AllSettled(items, sets)
    ensures Inv(Import(t, items, sets, now).0)
  {
    hide Inv;
    hide Settled;
    hide IsSettled;
    hide ImportItem;
    if items != [] {
      var n := |items| - 1;
      ImportKeeps(t, items[..n], sets[..n], now);
      SettledIsSettled(items[n].settings, sets[n]);
      ImportItemKeeps(Import(t, items[..n], sets[..n], now).0, items[n], sets[n], now);
    }
  }

  /** An export lists by name exactly the nodes with the status asked for, each as it is, with or without history. */
  lemma ExportContents(s: State, filter: string, withHistory: bool, items: seq<Node>)
    requires Inv(s) && IsExport(s, filter, withHistory, items)
    ensures forall i, j :: 0 <= i < j < |items| ==> Less(items[i].name, items[j].name)
    ensures forall i :: 0 <= i < |items| ==>
      && items[i].name in s && items[i] == s[items[i].name].(history := items[i].history)
      && items[i].history == (if withHistory then s[items[i].name].history else [])
    ensures forall name :: name in s ==>
      ((exists i :: 0 <= i < |items| && items[i].name == name) <==> Blank(filter) || s[name].status == Norm(filter))
  {
    hide IsSettled, IsStatus, Inv, ItemOk, TrimSpace, Norm;
    ExportedItems(s, filter, withHistory, items);
    SelectedListing(s, filter);
    var names := SortedElems(Selected(s, filter));
    forall i | 0 <= i < |items| ensures items[i].name == names[i] { KeptName(s, names[i]); }
    forall name | name in s
      ensures (exists i :: 0 <= i < |items| && items[i].name == name) <==> Blank(filter) || s[name].status == Norm(filter)
    {
      if name in Selected(s, filter) {
        assert name in ItemNames(items);
        var item :| item in items && item.name == name;
        var i :| 0 <= i < |items| && items[i] == item;
      }
    }
  }

  /** Enrolling settles what was handed in; a new node starts in bootstrap, a known one keeps its status and history. */
  lemma EnrollOutcome(s: State, name: string, raw: Settings, conf: Settings, now: int)
    requires Settled(raw, conf) && !Blank(name)
    ensures var k, t := TrimSpace(name), Step(s, EnrollOp(name, raw, conf, now));
      && k in t && t == s[k := t[k]]
      && t[k].settings.address == TrimSpace(raw.address) && t[k].settings.transport == Norm(raw.transport)
      && t[k].settings.source == (if Blank(raw.source) then "api" else TrimSpace(raw.source))
      && Elems(t[k].settings.roles) == (set x | x in raw.roles && Norm(x) != "" :: Norm(x))
      && MapCleaned(raw.labels, t[k].settings.labels, Norm) && MapCleaned(raw.topology, t[k].settings.topology, Norm)
      && t[k].updatedAt == now
      && (k in s ==> t[k] == s[k].(settings := t[k].settings, updatedAt := now))
      && (k !in s ==>
            && t[k].name == k && t[k].status == "bootstrap" && t[k].enrolledAt == now && t[k].lastSeenAt == 0
            && t[k].history == [Change("bootstrap", "auto-enrolled", now)])
  {
    hide TrimSpace, Norm, SortedClean, MapCleaned;
    SortedCleanMeaning(raw.roles, Norm);
  }

  /** A status is set exactly when it is one of the four and the node is known; the change goes on record. */
  lemma SetStatusOutcome(s: State, name: string, status: string, reason: string, now: int)
    ensures var k, st, (t, error) := TrimSpace(name), Norm(status), SetStatus(s, name, status, reason, now);
      && (error == None <==> k != "" && k in s && st in {"bootstrap", "active", "quarantined", "decommissioned"})
      && (error.Some? ==> t == s)
      && (error == None ==>
            t == s[k := s[k].(status := st, updatedAt := now, history := s[k].history + [Change(st, TrimSpace(reason), now)])])
  {
    hide TrimSpace, Norm;
  }

  // ---------------------------------------------------------------- dry runs

  predicate BadItem(item: Node) {
    !Blank(item.name) && !Blank(item.status) && !IsStatus(Norm(item.status))
  }

  function NamesOf(items: seq<Node>): set<string> {
    set item | item in items && !Blank(item.name) :: TrimSpace(item.name)
  }

  /** The item is new to the store but repeats a name from earlier in the bundle. */
  predicate Repeats(s: State, items: seq<Node>, i: nat)
    requires i < |items|
  {
    !Blank(items[i].name) && TrimSpace(items[i].name) !in s && TrimSpace(items[i].name) in NamesOf(items[..i])
  }

  /** The condition a caller can check before a real import. */
  predicate Predictable(s: State, items: seq<Node>) {
    forall i :: 0 <= i < |items| ==> !BadItem(items[i]) && !Repeats(s, items, i)
  }

  lemma ImportItemVerdict(t: State, item: Node, conf: Settings, now: int)
    ensures var (u, verdict) := ImportItem(t, item, conf, now);
            && u.Keys == t.Keys + (if Blank(item.name) then {} else {TrimSpace(item.name)})
            && verdict == if BadItem(item) then Failed else Preview(t, item)
  {
    hide TrimSpace;
    var name, desired := TrimSpace(item.name), TrimSpace(item.status);
    assert Norm(desired) == Norm(item.status);
    assert Trimmed(desired) && desired == BOOTSTRAP ==> Norm(desired) == BOOTSTRAP by { StatusIsNormal(BOOTSTRAP); }
  }

  lemma NamesOfNone()
    ensures NamesOf([]) == {}
  {}

  lemma NamesOfSnoc(items: seq<Node>, item: Node)
    ensures NamesOf(items + [item]) == NamesOf(items) + (if Blank(item.name) then {} else {TrimSpace(item.name)})
  {
    hide TrimSpace;
    assert forall x :: x in items + [item] <==> x in items || x == item;
  }

  /** What a real import reports for each item. */
  lemma {:induction false} ImportVerdicts(s: State, items: seq<Node>, sets: seq<Settings>, now: int)
    requires |sets| == |items|
    ensures var (u, verdicts) := Import(s, items, sets, now);
            && u.Keys == s.Keys + NamesOf(items) && |verdicts| == |items|
            && forall i :: 0 <= i < |items| ==>
                 verdicts[i] == if BadItem(items[i]) then Failed else if Repeats(s, items, i) then Updated else Preview(s, items[i])
  {
    hide TrimSpace;
    hide ImportItem;
    hide BadItem;
    hide IsStatus;
    hide NamesOf;
    if items == [] {
      NamesOfNone();
    } else {
      var n := |items| - 1;
      var front, last := items[..n], items[n];
      ImportVerdicts(s, front, sets[..n], now);
      var (t, verdicts) := Import(s, front, sets[..n], now);
      ImportItemVerdict(t, last, sets[n], now);
      NamesOfSnoc(front, last);
      assert items == front + [last];
      forall i | 0 <= i < n ensures Repeats(s, items, i) == Repeats(s, front, i) { assert items[..i] == front[..i]; }
    }
  }

  function Count(verdicts: seq<Verdict>, v: Verdict): nat {
    if verdicts == [] then 0
    else Count(verdicts[..|verdicts| - 1], v) + if verdicts[|verdicts| - 1] == v then 1 else 0
  }

  datatype Tally = Tally(imported: nat, updated: nat, failed: nat)

  function TallyOf(verdicts: seq<Verdict>): Tally {
    Tally(Count(verdicts, Imported), Count(verdicts, Updated), Count(verdicts, Failed))
  }

  function Bump(t: Tally, v: Verdict): Tally {
    match v
    case Imported => t.(imported := t.imported + 1)
    case Updated => t.(updated := t.updated + 1)
    case Failed => t.(failed := t.failed + 1)
  }

  lemma TallyNone()
    ensures TallyOf([]) == Tally(0, 0, 0)
  {}

  lemma TallySnoc(verdicts: seq<Verdict>, v: Verdict)
    ensures TallyOf(verdicts + [v]) == Bump(TallyOf(verdicts), v)
  {
    assert (verdicts + [v])[..|verdicts|] == verdicts;
  }

  function Rank(v: Verdict): nat {
    match v case Imported => 2 case Updated => 1 case Failed => 0
  }

  function Score(verdicts: seq<Verdict>): nat {
    2 * Count(verdicts, Imported) + Count(verdicts, Updated)
  }

  /** If every verdict is at most its counterpart, the counts agree only when all verdicts do. */
  lemma {:induction false} CountsDecide(done: seq<Verdict>, dry: seq<Verdict>)
    requires |done| == |dry| && forall i :: 0 <= i < |done| ==> Rank(done[i]) <= Rank(dry[i])
    ensures Score(done) <= Score(dry)
    ensures Score(done) == Score(dry) <==> done == dry
  {
    if done != [] {
      var n := |done| - 1;
      CountsDecide(done[..n], dry[..n]);
      assert done == done[..n] + [done[n]] && dry == dry[..n] + [dry[n]];
      assert Score(done) == Score(done[..n]) + Rank(done[n]);
      assert Score(dry) == Score(dry[..n]) + Rank(dry[n]);
    }
  }

  /**
   A dry run predicts the real import, item by item and in its three counts, exactly when no named item has a
   bad status and no name that is new to the store comes twice.
   */
  lemma DryRunPredictsIff(s: State, items: seq<Node>, sets: seq<Settings>, now: int)
    requires |sets| == |items|
    ensures var verdicts := Import(s, items, sets, now).1;
            && (verdicts == DryRun(s, items) <==> Predictable(s, items))
            && (TallyOf(verdicts) == TallyOf(DryRun(s, items)) <==> Predictable(s, items))
  {
    hide Import;
    hide TrimSpace;
    hide IsStatus;
    ImportVerdicts(s, items, sets, now);
    var verdicts, dry := Import(s, items, sets, now).1, DryRun(s, items);
    forall i | 0 <= i < |items|
      ensures Rank(verdicts[i]) <= Rank(dry[i])
      ensures verdicts[i] == dry[i] <==> !BadItem(items[i]) && !Repeats(s, items, i)
    {
      assert dry[i] == Preview(s, items[i]);
    }
    CountsDecide(verdicts, dry);
    assert verdicts == dry <==> forall i :: 0 <= i < |items| ==> verdicts[i] == dry[i];
  }

  /** A bad status is reported as a failure, yet the node has been enrolled. */
  lemma FailedItemIsStillEnrolled(s: State, item: Node, conf: Settings, now: int)
    requires BadItem(item)
    ensures var (u, verdict) := ImportItem(s, item, conf, now);
            verdict == Failed && u == Enroll(s, TrimSpace(item.name), conf, now) && Preview(s, item) != Failed
  {
    hide TrimSpace;
    ImportItemVerdict(s, item, conf, now);
    assert Norm(TrimSpace(item.status)) == Norm(item.status);
  }

  // -------------------------------------------------------------- the store

  method Settle(raw: Settings) returns (out: Settings)
    ensures Settled(raw, out)
  {
    hide TrimSpace;
    var source := TrimSpace(raw.source);
    if source == "" { source := "api"; }
    var labels := CleanMapLoop(raw.labels, Norm);
    var roles := SortedCleanLoop(raw.roles, Norm);
    var topology := CleanMapLoop(raw.topology, Norm);
    out := Settings(TrimSpace(raw.address), Norm(raw.transport), labels, roles, topology, source);
  }

  /** Handing out a node cleans its maps again, which changes nothing in a reachable store. */
  method CloneNode(n: Node) returns (out: Node)
    requires IsCleanMap(n.settings.labels, Norm) && IsCleanMap(n.settings.topology, Norm)
    ensures out == n
  {
    var labels := CleanMapLoop(n.settings.labels, Norm);
    CleanMapId(n.settings.labels, labels, Norm);
    var topology := CleanMapLoop(n.settings.topology, Norm);
    CleanMapId(n.settings.topology, topology, Norm);
    out := n.(settings := n.settings.(labels := labels, topology := topology));
  }

  class NodeLifecycleStore {
    var nodes: map<string, Node>

    constructor ()
      ensures nodes == map[] && Inv(nodes)
    {
      nodes := map[];
    }

    method EnrollNode(rawName: string, raw: Settings, now: int)
      returns (ok: bool, created: bool, ghost conf: Settings)
      requires Inv(nodes)
      modifies this
      ensures ok == !Blank(rawName) && Settled(raw, conf) && Inv(nodes)
      ensures nodes == Step(old(nodes), EnrollOp(rawName, raw, conf, now))
      ensures created == (ok && TrimSpace(rawName) !in old(nodes))
    {
      hide TrimSpace;
      hide Inv;
      hide Settled;
      var clean := Settle(raw);
      conf := clean;
      StepKeeps(nodes, EnrollOp(rawName, raw, conf, now));
      var name := TrimSpace(rawName);
      if name == "" { return false, false, conf; }
      created := name !in nodes;
      if created {
        nodes := nodes[name := Node(name, clean, BOOTSTRAP, now, now, 0, [Change(BOOTSTRAP, "auto-enrolled", now)])];
      } else {
        nodes := nodes[name := nodes[name].(settings := clean, updatedAt := now)];
      }
      ok := true;
    }

    method SetNodeStatus(rawName: string, rawStatus: string, reason: string, now: int) returns (error: Option<Error>)
      requires Inv(nodes)
      modifies this
      ensures Inv(nodes) && (nodes, error) == SetStatus(old(nodes), rawName, rawStatus, reason, now)
    {
      hide TrimSpace;
      hide Inv;
      SetStatusKeeps(nodes, rawName, rawStatus, reason, now);
      var name, status := TrimSpace(rawName), Norm(rawStatus);
      if name == "" { return Some(NameRequired); }
      if status != BOOTSTRAP && status != "active" && status != "quarantined" && status != "decommissioned" {
        return Some(BadStatus);
      }
      if name !in nodes { return Some(NotFound); }
      var node := nodes[name];
      node := node.(status := status, updatedAt := now);
      node := node.(history := node.history + [Change(status, TrimSpace(reason), now)]);
      nodes := nodes[name := node];
      return None;
    }

    method HeartbeatNode(rawName: string, now: int) returns (ok: bool)
      requires Inv(nodes)
      modifies this
      ensures Inv(nodes) && nodes == Heartbeat(old(nodes), rawName, now) && ok == (TrimSpace(rawName) in old(nodes))
    {
      hide TrimSpace;
      hide Inv;
      HeartbeatKeeps(nodes, rawName, now);
      NoBlankName(nodes);
      var name := TrimSpace(rawName);
      if name == "" { return false; }
      if name !in nodes { return false; }
      nodes := nodes[name := nodes[name].(lastSeenAt := now, updatedAt := now)];
      return true;
    }

    method SelectedNames(filter: string) returns (names: set<string>)
      ensures names == Selected(nodes, filter)
    {
      hide TrimSpace;
      hide Norm;
      var status := Norm(filter);
      names := {};
      var rest := nodes.Keys;
      while rest != {}
        invariant rest <= nodes.Keys && names == Selected(nodes, filter) - rest
      {
        var name :| name in rest;
        rest := rest - {name};
        if status == "" || nodes[name].status == status { names := names + {name}; }
      }
    }

    /** The inventory part of a bundle; None when the status filter is not a status. */
    method ExportInventory(filter: string, withHistory: bool) returns (out: Option<seq<Node>>)
      requires Inv(nodes)
      ensures out.Some? <==> Blank(filter) || IsStatus(Norm(filter))
      ensures out.Some? ==> IsExport(nodes, filter, withHistory, out.value)
    {
      hide *;
      NormBlank(filter);
      var status := Norm(filter);
      if status != "" && !IsStatus(status) { return None; }
      var picked := SelectedNames(filter);
      var names := SortKeys(picked);
      SelectedListing(nodes, filter);
      var items := ExportNodes(names, withHistory);
      ExportIs(nodes, filter, withHistory, items);
      return Some(items);
    }

    method ExportNodes(names: seq<string>, withHistory: bool) returns (items: seq<Node>)
      requires Inv(nodes) && forall i :: 0 <= i < |names| ==> names[i] in nodes
      ensures |items| == |names|
      ensures forall i :: 0 <= i < |names| ==> items[i] == Exported(nodes[names[i]], withHistory)
    {
      hide Inv;
      hide Exported;
      items := [];
      for i := 0 to |names|
        invariant |items| == i
        invariant forall k :: 0 <= k < i ==> items[k] == Exported(nodes[names[k]], withHistory)
      {
        var item := ExportNode(names[i], withHistory);
        items := items + [item];
      }
    }

    method ExportNode(name: string, withHistory: bool) returns (out: Node)
      requires Inv(nodes) && name in nodes
      ensures out == Exported(nodes[name], withHistory)
    {
      hide IsCleanMap;
      assert NodeOk(name, nodes[name]);
      out := CloneNode(nodes[name]);
      if !withHistory { out := out.(history := []); }
    }

    /** `importInventorySection`; `sets` records the normalised settings of the items. */
    method ImportSection(items: seq<Node>, dryRun: bool, now: int)
      returns (tally: Tally, verdicts: seq<Verdict>, ghost sets: seq<Settings>)
      requires Inv(nodes)
      modifies this
      ensures Inv(nodes) && tally == TallyOf(verdicts)
      ensures dryRun ==> nodes == old(nodes) && verdicts == DryRun(nodes, items)
      ensures !dryRun ==> AllSettled(items, sets) && (nodes, verdicts) == Import(old(nodes), items, sets, now)
    {
      hide Inv;
      hide Settled;
      hide ImportItem;
      hide TallyOf;
      hide Bump;
      hide Preview;
      TallyNone();
      tally, verdicts, sets := Tally(0, 0, 0), [], [];
      for i := 0 to |items|
        invariant Inv(nodes) && |verdicts| == i && tally == TallyOf(verdicts)
        invariant dryRun ==> nodes == old(nodes) && forall k :: 0 <= k < i ==> verdicts[k] == Preview(nodes, items[k])
        invariant !dryRun ==> AllSettled(items[..i], sets) && (nodes, verdicts) == Import(old(nodes), items[..i], sets, now)
      {
        ghost var before := sets;
        var verdict;
        if dryRun {
          verdict := PreviewOne(items[i]);
        } else {
          ghost var conf;
          verdict, conf := ImportOne(items[i], now);
          sets := sets + [conf];
          assert items[..i + 1][..i] == items[..i] && sets[..i] == before;
        }
        TallySnoc(verdicts, verdict);
        verdicts := verdicts + [verdict];
        tally := Bump(tally, verdict);
      }
      assert items[..|items|] == items;
    }

    method PreviewOne(item: Node) returns (verdict: Verdict)
      ensures verdict == Preview(nodes, item)
    {
      var name := TrimSpace(item.name);
      if name == "" { return Failed; }
      if name in nodes { return Updated; }
      return Imported;
    }

    method ImportOne(item: Node, now: int) returns (verdict: Verdict, ghost conf: Settings)
      requires Inv(nodes)
      modifies this
      ensures Inv(nodes) && Settled(item.settings, conf)
      ensures (nodes, verdict) == ImportItem(old(nodes), item, conf, now)
    {
      hide TrimSpace;
      hide Inv;
      hide Settled;
      hide SetStatus;
      var name := TrimSpace(item.name);
      if name == "" {
        conf := Settle(item.settings);
        return Failed, conf;
      }
      var ok, created;
      ok, created, conf := EnrollNode(name, item.settings, now);
      verdict := if created then Imported else Updated;
      var desired := TrimSpace(item.status);
      if desired != "" && desired != BOOTSTRAP {
        var error := SetNodeStatus(name, desired, IMPORT_REASON, now);
        if error.Some? { verdict := Failed; }
      }
    }
  }

  lemma NoBlankName(s: State)
    requires Inv(s)
    ensures "" !in s
  {
    hide IsSettled;
    forall name | name in s ensures name != "" { assert NodeOk(name, s[name]); }
  }

  lemma NormBlank(s: string)
    ensures Norm(s) == "" <==> Blank(s)
  {}

  lemma ExportIs(s: State, filter: string, withHistory: bool, items: seq<Node>)
    requires var names := SortedElems(Selected(s, filter));
             |items| == |names| && forall i :: 0 <= i < |names| ==> names[i] in s && items[i] == Exported(s[names[i]], withHistory)
    ensures IsExport(s, filter, withHistory, items)
  {}
}
