/**
 Execution locks with a time to live (internal/control/execution_locks.go).
 Main results: with a clock that never runs backwards, grants for one key never overlap and no grant is ever
 lost from the records; the job index is exact after a step exactly when the step meets a condition visible
 beforehand, and in disciplined runs always. Times are in seconds; ids are the numbers behind "exec-lock-n".
 */
module ExecutionLocks {
  import opened Wrappers
  import opened Text
  import opened Normalize

  datatype Status = Active | Released | Expired

  datatype Lock = Lock(
    id: nat, key: string, holder: string, jobId: string, acquiredAt: int, expiresAt: int,
    releasedAt: Option<int>, status: Status)

  datatype State = State(nextId: nat, byKey: map<string, Lock>, byJob: map<string, string>, history: seq<Lock>)

  const INITIAL := State(0, map[], map[], [])

  datatype Error = KeyRequired | Held | KeyAndJobRequired | NotActive | LockExpired

  // ------------------------------------------------------------- operations

  function EndedAt(l: Lock, status: Status, now: int): Lock {
    l.(status := status, releasedAt := Some(now))
  }

  function NewLock(id: nat, key: string, holder: string, ttl: int, now: int): Lock {
    Lock(id, key, if Blank(holder) then "control-plane" else TrimSpace(holder), "", now,
         now + (if ttl <= 0 then 600 else ttl), None, Active)
  }

  predicate HeldAt(s: State, k: string, now: int) {
    k in s.byKey && s.byKey[k].status == Active && now < s.byKey[k].expiresAt
  }

  predicate OverdueAt(s: State, k: string, now: int) {
    k in s.byKey && s.byKey[k].status == Active && now >= s.byKey[k].expiresAt
  }

  function AcquireError(s: State, key: string, now: int): Option<Error> {
    if Norm(key) == "" then Some(KeyRequired) else if HeldAt(s, Norm(key), now) then Some(Held) else None
  }

  function Acquire(s: State, key: string, holder: string, ttl: int, now: int): State {
    var k := Norm(key);
    if AcquireError(s, key, now).Some? then s
    else
      var history := if OverdueAt(s, k, now) then s.history + [EndedAt(s.byKey[k], Expired, now)] else s.history;
      s.(nextId := s.nextId + 1, history := history, byKey := s.byKey[k := NewLock(s.nextId + 1, k, holder, ttl, now)])
  }

  function BindError(s: State, key: string, job: string, now: int): Option<Error> {
    var k := Norm(key);
    if k == "" || Blank(job) then Some(KeyAndJobRequired)
    else if k !in s.byKey || s.byKey[k].status != Active then Some(NotActive)
    else if now >= s.byKey[k].expiresAt then Some(LockExpired)
    else None
  }

  function BindJob(s: State, key: string, job: string, now: int): State {
    var k, j := Norm(key), TrimSpace(job);
    match BindError(s, key, job, now)
    case None => s.(byKey := s.byKey[k := s.byKey[k].(jobId := j)], byJob := s.byJob[j := k])
    case Some(LockExpired) =>
      var l := EndedAt(s.byKey[k], Expired, now);
      s.(byKey := s.byKey[k := l], history := s.history + [l])
    case _ => s
  }

  /** The key a release acts on: the given one, or else the one indexed under the job. */
  function ReleaseKey(s: State, key: string, job: string): string {
    var j := TrimSpace(job);
    if Norm(key) == "" && j != "" then (if j in s.byJob then s.byJob[j] else "") else Norm(key)
  }

  /** The lock leaves the table for the history, and its job leaves the index. */
  function Retire(s: State, k: string, l: Lock): State {
    s.(byKey := s.byKey - {k}, history := s.history + [l],
       byJob := if l.jobId != "" then s.byJob - {l.jobId} else s.byJob)
  }

  function ReleasedLock(s: State, key: string, job: string, now: int): Option<Lock> {
    var k := ReleaseKey(s, key, job);
    if k == "" || k !in s.byKey then None
    else Some(if s.byKey[k].status == Active then EndedAt(s.byKey[k], Released, now) else s.byKey[k])
  }

  function Release(s: State, key: string, job: string, now: int): State {
    match ReleasedLock(s, key, job, now)
    case None => s
    case Some(l) => Retire(s, ReleaseKey(s, key, job), l)
  }

  function CleanupOne(s: State, k: string, now: int): State {
    if OverdueAt(s, k, now) then Retire(s, k, EndedAt(s.byKey[k], Expired, now)) else s
  }

  /** Cleaning up key by key, in the order the map yields them. */
  function Cleanup(s: State, order: seq<string>, now: int): State {
    if order == [] then s else CleanupOne(Cleanup(s, order[..|order| - 1], now), order[|order| - 1], now)
  }

  ghost predicate IsOrder(s: State, order: seq<string>) {
    Elems(order) == s.byKey.Keys && NoDup(order)
  }

  ghost function OverdueKeys(s: State, now: int): set<string> {
    set k | k in s.byKey && OverdueAt(s, k, now)
  }

  /** The locks a clean-up reports: those it ended, by ascending key. */
  ghost predicate IsExpiredList(s: State, now: int, out: seq<Lock>) {
    var keys := SortedElems(OverdueKeys(s, now));
    && |out| == |keys|
    && forall i :: 0 <= i < |keys| ==> keys[i] in s.byKey && out[i] == EndedAt(s.byKey[keys[i]], Expired, now)
  }

  // ------------------------------------------------------- grants and records

  /** When a grant stopped (or will stop) being live. */
  function End(l: Lock): int {
    if l.releasedAt.Some? && l.releasedAt.value < l.expiresAt then l.releasedAt.value else l.expiresAt
  }

  predicate LiveAt(l: Lock, t: int) {
    l.acquiredAt <= t < End(l)
  }

  /** Everything the store remembers about grants: the table and the history. */
  ghost function Records(s: State): set<Lock> {
    (set l | l in s.history) + s.byKey.Values
  }

  ghost predicate LockOk(l: Lock, clock: int, last: nat) {
    && 1 <= l.id <= last && l.acquiredAt <= clock && l.acquiredAt < l.expiresAt
    && (l.status == Active <==> l.releasedAt.None?)
    && (l.releasedAt.Some? ==> l.acquiredAt <= l.releasedAt.value <= clock)
    && (l.status == Expired ==> l.expiresAt <= l.releasedAt.value)
  }

  /** Two records: the same grant, or one for the same key that ended before the other was acquired. */
  predicate Ordered(a: Lock, b: Lock) {
    && (a.id == b.id ==> a.key == b.key && a.acquiredAt == b.acquiredAt && End(a) == End(b))
    && (a.id < b.id && a.key == b.key ==> End(a) <= b.acquiredAt)
  }

  ghost predicate HasId(rs: set<Lock>, id: nat) {
    exists l :: l in rs && l.id == id
  }

  ghost predicate RecordsOk(rs: set<Lock>, clock: int, last: nat) {
    && (forall l :: l in rs ==> LockOk(l, clock, last))
    && (forall a, b :: a in rs && b in rs ==> Ordered(a, b))
    && (forall id: nat :: 1 <= id <= last ==> HasId(rs, id))
  }

  /** The table: each entry under its own key and the latest for it; active, or expired and in the history. */
  ghost predicate EntryOk(s: State, k: string)
    requires k in s.byKey
  {
    var l := s.byKey[k];
    && l.key == k && k != ""
    && (l.status == Active ==> forall h :: h in s.history ==> h.id != l.id)
    && (l.status != Active ==> l.status == Expired && l in s.history)
    && (forall h :: h in s.history && h.key == k ==> h.id <= l.id)
  }

  ghost predicate Inv(s: State, clock: int) {
    && RecordsOk(Records(s), clock, s.nextId)
    && (forall h :: h in s.history ==> h.status != Active)
    && (forall k :: k in s.byKey ==> EntryOk(s, k))
  }

  // ------------------------------------------------- how records may change

  /** A grant ends earlier than it would have, or only learns its job. */
  predicate Amends(l: Lock, m: Lock) {
    m.id == l.id && m.key == l.key && m.acquiredAt == l.acquiredAt && End(m) <= End(l)
  }

  lemma SwapRecord(rs: set<Lock>, l: Lock, m: Lock, clock: int, last: nat)
    requires RecordsOk(rs, clock, last) && l in rs && (forall x :: x in rs && x != l ==> x.id != l.id)
    requires Amends(l, m) && LockOk(m, clock, last)
    ensures RecordsOk(rs - {l} + {m}, clock, last)
  {
    hide LockOk;
    var ts := rs - {l} + {m};
    forall a, b | a in ts && b in ts ensures Ordered(a, b) {
      assert Ordered(if a == m then l else a, if b == m then l else b);
    }
    forall id: nat | 1 <= id <= last ensures HasId(ts, id) {
      assert HasId(rs, id);
      var x :| x in rs && x.id == id;
      assert (if x == l then m else x) in ts;
    }
  }

  lemma AddRecord(rs: set<Lock>, l: Lock, clock: int, last: nat)
    requires RecordsOk(rs, clock, last) && l.id == last + 1 && LockOk(l, clock, last + 1)
    requires forall x :: x in rs && x.key == l.key ==> End(x) <= l.acquiredAt
    ensures RecordsOk(rs + {l}, clock, last + 1)
  {
    var ts := rs + {l};
    forall a, b | a in ts && b in ts ensures Ordered(a, b) {
      assert a in rs ==> LockOk(a, clock, last);
      assert b in rs ==> LockOk(b, clock, last);
    }
    forall id: nat | 1 <= id <= last + 1 ensures HasId(ts, id) {
      if id <= last { assert HasId(rs, id); var x :| x in rs && x.id == id; assert x in ts; }
      else { assert l in ts; }
    }
  }

  lemma RecordsLater(rs: set<Lock>, clock: int, now: int, last: nat)
    requires RecordsOk(rs, clock, last) && clock <= now
    ensures RecordsOk(rs, now, last)
  {
    forall l | l in rs ensures LockOk(l, now, last) { assert LockOk(l, clock, last); }
  }

  lemma InvLater(s: State, clock: int, now: int)
    requires Inv(s, clock) && clock <= now
    ensures Inv(s, now)
  {
    RecordsLater(Records(s), clock, now, s.nextId);
  }

  /** An active entry is the only record of its grant, and no record of its key is newer. */
  lemma ActiveEntry(s: State, clock: int, k: string)
    requires Inv(s, clock) && k in s.byKey
    ensures s.byKey[k] in Records(s) && LockOk(s.byKey[k], clock, s.nextId)
    ensures s.byKey[k].status == Active ==> forall x :: x in Records(s) && x != s.byKey[k] ==> x.id != s.byKey[k].id
  {
    hide LockOk;
    assert EntryOk(s, k);
    var l := s.byKey[k];
    forall x | x in Records(s) && x.id == l.id && x != l ensures l.status != Active {
      assert Ordered(x, l);
      if x !in s.history {
        var j :| j in s.byKey && s.byKey[j] == x;
      }
    }
  }

  /** Replaces an active entry by an amended one, in place. */
  function Amend(s: State, k: string, m: Lock): State {
    s.(byKey := s.byKey[k := m], history := if m.status == Active then s.history else s.history + [m])
  }

  lemma AmendRecords(s: State, clock: int, k: string, m: Lock)
    requires Inv(s, clock) && k in s.byKey && s.byKey[k].status == Active && m.id == s.byKey[k].id
    ensures Records(Amend(s, k, m)) == Records(s) - {s.byKey[k]} + {m}
  {
    var l, t := s.byKey[k], Amend(s, k, m);
    ActiveEntry(s, clock, k);
    assert EntryOk(s, k);
    forall x ensures x in Records(t) <==> x in Records(s) - {l} + {m} {
      if x in t.byKey.Values && x != m {
        var j :| j in t.byKey && t.byKey[j] == x;
        assert j != k && s.byKey[j] == x;
        assert EntryOk(s, j);
      }
      if x in s.byKey.Values && x != l {
        var j :| j in s.byKey && s.byKey[j] == x;
        assert t.byKey[j] == x;
      }
      if x == m { assert t.byKey[k] == m; }
    }
  }

  lemma AmendOk(s: State, clock: int, k: string, m: Lock)
    requires Inv(s, clock) && k in s.byKey && s.byKey[k].status == Active
    requires Amends(s.byKey[k], m) && LockOk(m, clock, s.nextId) && (m.status == Active || m.status == Expired)
    ensures Inv(Amend(s, k, m), clock)
  {
    hide RecordsOk;
    hide EntryOk;
    AmendRecords(s, clock, k, m);
    ActiveEntry(s, clock, k);
    SwapRecord(Records(s), s.byKey[k], m, clock, s.nextId);
    AmendEntries(s, clock, k, m);
  }

  lemma AmendEntries(s: State, clock: int, k: string, m: Lock)
    requires Inv(s, clock) && k in s.byKey && s.byKey[k].status == Active
    requires Amends(s.byKey[k], m) && (m.status == Active || m.status == Expired)
    ensures forall j :: j in Amend(s, k, m).byKey ==> EntryOk(Amend(s, k, m), j)
    ensures forall h :: h in Amend(s, k, m).history ==> h.status != Active
  {
    hide RecordsOk;
    hide Records;
    var t := Amend(s, k, m);
    assert EntryOk(s, k);
    forall j | j in t.byKey ensures EntryOk(t, j) {
      assert EntryOk(s, j);
      if j != k { DistinctIds(s, clock, j, k); }
    }
  }

  lemma DistinctIds(s: State, clock: int, j: string, k: string)
    requires Inv(s, clock) && j in s.byKey && k in s.byKey && j != k
    ensures s.byKey[j].id != s.byKey[k].id
  {
    assert EntryOk(s, j) && EntryOk(s, k);
    assert s.byKey[j] in Records(s) && s.byKey[k] in Records(s);
    assert Ordered(s.byKey[j], s.byKey[k]);
  }

  lemma DropRecords(s: State, k: string)
    requires k in s.byKey && s.byKey[k] in s.history
    ensures Records(s.(byKey := s.byKey - {k})) == Records(s)
  {
    var t := s.(byKey := s.byKey - {k});
    forall x ensures x in Records(t) <==> x in Records(s) {
      if x in s.byKey.Values {
        var j :| j in s.byKey && s.byKey[j] == x;
        if j != k { assert t.byKey[j] == x; }
      }
      if x in t.byKey.Values {
        var j :| j in t.byKey && t.byKey[j] == x;
        assert s.byKey[j] == x;
      }
    }
  }

  /** Dropping an entry that the history holds. */
  lemma DropOk(s: State, clock: int, k: string)
    requires Inv(s, clock) && k in s.byKey && s.byKey[k].status == Expired
    ensures Inv(s.(byKey := s.byKey - {k}), clock)
  {
    hide RecordsOk;
    hide Records;
    var t := s.(byKey := s.byKey - {k});
    assert EntryOk(s, k);
    DropRecords(s, k);
    forall j | j in t.byKey ensures EntryOk(t, j) { assert EntryOk(s, j); }
  }

  /** An active lock moves to the history as released or expired. */
  lemma {:induction false} RetireOk(s: State, clock: int, k: string, m: Lock)
    requires Inv(s, clock) && k in s.byKey && LockOk(m, clock, s.nextId)
    requires if s.byKey[k].status == Active then Amends(s.byKey[k], m) && m.status != Active else m == s.byKey[k]
    ensures Inv(Retire(s, k, m), clock)
  {
    hide RecordsOk;
    var l, t := s.byKey[k], Retire(s, k, m);
    assert EntryOk(s, k);
    if l.status == Active { ActiveEntry(s, clock, k); }
    RetireRecords(s, clock, k, m);
    if l.status == Active {
      SwapRecord(Records(s), l, m, clock, s.nextId);
    }
    RetireEntries(s, clock, k, m);
  }

  lemma RetireRecords(s: State, clock: int, k: string, m: Lock)
    requires Inv(s, clock) && k in s.byKey && m.id == s.byKey[k].id
    requires s.byKey[k].status != Active ==> m == s.byKey[k]
    ensures Records(Retire(s, k, m)) == if s.byKey[k].status == Active then Records(s) - {s.byKey[k]} + {m} else Records(s)
  {
    var l, t := s.byKey[k], Retire(s, k, m);
    assert EntryOk(s, k);
    forall x ensures x in Records(t) <==> x in (if l.status == Active then Records(s) - {l} + {m} else Records(s)) {
      if x in t.byKey.Values {
        var j :| j in t.byKey && t.byKey[j] == x;
        assert j != k && s.byKey[j] == x;
        DistinctIds(s, clock, j, k);
      }
      if x in s.byKey.Values && x != l {
        var j :| j in s.byKey && s.byKey[j] == x;
        assert t.byKey[j] == x;
      }
    }
  }

  lemma RetireEntries(s: State, clock: int, k: string, m: Lock)
    requires Inv(s, clock) && k in s.byKey && m.key == k && m.id == s.byKey[k].id && m.status != Active
    ensures forall j :: j in Retire(s, k, m).byKey ==> EntryOk(Retire(s, k, m), j)
    ensures forall h :: h in Retire(s, k, m).history ==> h.status != Active
  {
    hide RecordsOk;
    hide Records;
    var t := Retire(s, k, m);
    forall j | j in t.byKey ensures EntryOk(t, j) {
      assert EntryOk(s, j);
      DistinctIds(s, clock, j, k);
    }
  }

  /** A free key takes a new grant. */
  lemma GrantOk(s: State, clock: int, l: Lock)
    requires Inv(s, clock) && l.id == s.nextId + 1 && LockOk(l, clock, s.nextId + 1) && l.acquiredAt == clock
    requires l.status == Active && l.key != "" && l.key !in s.byKey
    ensures Inv(s.(nextId := s.nextId + 1, byKey := s.byKey[l.key := l]), clock)
  {
    var t := s.(nextId := s.nextId + 1, byKey := s.byKey[l.key := l]);
    forall x | x in Records(s) ensures LockOk(x, clock, s.nextId) && (x.key == l.key ==> End(x) <= clock) {
      assert LockOk(x, clock, s.nextId);
      if x !in s.history {
        var j :| j in s.byKey && s.byKey[j] == x;
        assert EntryOk(s, j);
      }
    }
    assert Records(t) == Records(s) + {l} by {
      assert t.byKey[l.key] == l;
      forall x | x in s.byKey.Values ensures x in t.byKey.Values {
        var j :| j in s.byKey && s.byKey[j] == x;
        assert t.byKey[j] == x;
      }
    }
    AddRecord(Records(s), l, clock, s.nextId);
    forall j | j in t.byKey ensures EntryOk(t, j) {
      if j != l.key { assert EntryOk(s, j); }
      else { forall h | h in s.history ensures h.id <= s.nextId { assert h in Records(s); } }
    }
  }

  // ------------------------------------------------------------------- steps

  datatype Op =
    | AcquireOp(key: string, holder: string, ttl: int, now: int)
    | BindOp(key: string, job: string, now: int)
    | ReleaseOp(key: string, job: string, now: int)
    | CleanupOp(order: seq<string>, now: int)

  ghost predicate Possible(s: State, op: Op) {
    op.CleanupOp? ==> IsOrder(s, op.order)
  }

  function Step(s: State, op: Op): State {
    match op
    case AcquireOp(key, holder, ttl, now) => Acquire(s, key, holder, ttl, now)
    case BindOp(key, job, now) => BindJob(s, key, job, now)
    case ReleaseOp(key, job, now) => Release(s, key, job, now)
    case CleanupOp(order, now) => Cleanup(s, order, now)
  }

  lemma EndedOk(l: Lock, status: Status, now: int, last: nat)
    requires LockOk(l, now, last) && l.status == Active
    requires (status == Expired && now >= l.expiresAt) || status == Released
    ensures LockOk(EndedAt(l, status, now), now, last) && Amends(l, EndedAt(l, status, now))
  {}

  lemma CleanupOneOk(s: State, k: string, now: int)
    requires Inv(s, now)
    ensures Inv(CleanupOne(s, k, now), now)
  {
    hide Inv;
    if OverdueAt(s, k, now) {
      ActiveEntry(s, now, k);
      EndedOk(s.byKey[k], Expired, now, s.nextId);
      RetireOk(s, now, k, EndedAt(s.byKey[k], Expired, now));
    }
  }

  lemma {:induction false} CleanupOk(s: State, order: seq<string>, now: int)
    requires Inv(s, now)
    ensures Inv(Cleanup(s, order, now), now)
  {
    hide Inv;
    if order != [] {
      CleanupOk(s, order[..|order| - 1], now);
      CleanupOneOk(Cleanup(s, order[..|order| - 1], now), order[|order| - 1], now);
    }
  }

  lemma AcquireOk(s: State, key: string, holder: string, ttl: int, now: int)
    requires Inv(s, now)
    ensures Inv(Acquire(s, key, holder, ttl, now), now)
  {
    hide Inv;
    hide TrimSpace;
    hide Norm;
    var k := Norm(key);
    if AcquireError(s, key, now) == None {
      var l := NewLock(s.nextId + 1, k, holder, ttl, now);
      var t := s;
      if OverdueAt(s, k, now) {
        ActiveEntry(s, now, k);
        EndedOk(s.byKey[k], Expired, now, s.nextId);
        t := Amend(s, k, EndedAt(s.byKey[k], Expired, now));
        AmendOk(s, now, k, EndedAt(s.byKey[k], Expired, now));
      }
      var u := t.(byKey := t.byKey - {k});
      if k in t.byKey {
        NotHeldIsExpired(t, now, k);
        DropOk(t, now, k);
      } else {
        assert u == t;
      }
      GrantOk(u, now, l);
      assert u.byKey[k := l] == s.byKey[k := l];
    }
  }

  lemma NotHeldIsExpired(s: State, now: int, k: string)
    requires Inv(s, now) && k in s.byKey && s.byKey[k].status != Active
    ensures s.byKey[k].status == Expired
  {
    assert EntryOk(s, k);
  }

  lemma BindOk(s: State, key: string, job: string, now: int)
    requires Inv(s, now)
    ensures Inv(BindJob(s, key, job, now), now)
  {
    hide Inv;
    hide TrimSpace;
    hide Norm;
    var k := Norm(key);
    match BindError(s, key, job, now) {
      case None =>
        ActiveEntry(s, now, k);
        var m := s.byKey[k].(jobId := TrimSpace(job));
        AmendOk(s, now, k, m);
        IndexIrrelevant(Amend(s, k, m), now, s.byJob[TrimSpace(job) := k]);
      case Some(e) =>
        if e == LockExpired {
          ActiveEntry(s, now, k);
          EndedOk(s.byKey[k], Expired, now, s.nextId);
          AmendOk(s, now, k, EndedAt(s.byKey[k], Expired, now));
        }
    }
  }

  lemma IndexIrrelevant(s: State, clock: int, byJob: map<string, string>)
    requires Inv(s, clock)
    ensures Inv(s.(byJob := byJob), clock)
  {
    var t := s.(byJob := byJob);
    assert Records(t) == Records(s);
    forall k | k in t.byKey ensures EntryOk(t, k) { assert EntryOk(s, k); }
  }

  lemma ReleaseOk(s: State, key: string, job: string, now: int)
    requires Inv(s, now)
    ensures Inv(Release(s, key, job, now), now)
  {
    hide Inv;
    hide TrimSpace;
    hide Norm;
    var k := ReleaseKey(s, key, job);
    if ReleasedLock(s, key, job, now).Some? {
      ActiveEntry(s, now, k);
      if s.byKey[k].status == Active { EndedOk(s.byKey[k], Released, now, s.nextId); }
      RetireOk(s, now, k, ReleasedLock(s, key, job, now).value);
    }
  }

  lemma StepOk(s: State, clock: int, op: Op)
    requires Inv(s, clock) && clock <= op.now
    ensures Inv(Step(s, op), op.now)
  {
    hide Inv;
    InvLater(s, clock, op.now);
    match op {
      case AcquireOp(key, holder, ttl, now) => AcquireOk(s, key, holder, ttl, now);
      case BindOp(key, job, now) => BindOk(s, key, job, now);
      case ReleaseOp(key, job, now) => ReleaseOk(s, key, job, now);
      case CleanupOp(order, now) => CleanupOk(s, order, now);
    }
  }

  // -------------------------------------------------------------------- runs

  function ClockAt(ops: seq<Op>, clock: int, i: nat): int
    requires i <= |ops|
  {
    if i == 0 then clock else ops[i - 1].now
  }

  /** The states of a run whose clock starts at `clock` and never runs backwards. */
  ghost predicate IsRun(states: seq<State>, ops: seq<Op>, clock: int) {
    && |states| == |ops| + 1 && states[0] == INITIAL
    && (forall i :: 0 <= i < |ops| ==> Possible(states[i], ops[i]) && states[i + 1] == Step(states[i], ops[i]))
    && (forall i :: 0 <= i < |ops| ==> ClockAt(ops, clock, i) <= ops[i].now)
  }

  lemma {:induction false} RunOk(states: seq<State>, ops: seq<Op>, clock: int, n: nat)
    requires IsRun(states, ops, clock) && n <= |ops|
    ensures Inv(states[n], ClockAt(ops, clock, n))
  {
    hide Inv;
    hide Step;
    hide Possible;
    if n == 0 {
      InitialOk(clock);
    } else {
      RunOk(states, ops, clock, n - 1);
      StepOk(states[n - 1], ClockAt(ops, clock, n - 1), ops[n - 1]);
    }
  }

  lemma InitialOk(clock: int)
    ensures Inv(INITIAL, clock)
  {
    assert Records(INITIAL) == {};
  }

  /** A key is held exactly when some grant on record for it is live. */
  lemma HeldIffLive(s: State, k: string, now: int)
    requires Inv(s, now)
    ensures HeldAt(s, k, now) <==> exists l :: l in Records(s) && l.key == k && LiveAt(l, now)
  {
    if HeldAt(s, k, now) {
      ActiveEntry(s, now, k);
      assert EntryOk(s, k);
    }
    forall l | l in Records(s) && l.key == k && LiveAt(l, now) ensures HeldAt(s, k, now) {
      assert LockOk(l, now, s.nextId);
      assert l !in s.history;
      var j :| j in s.byKey && s.byKey[j] == l;
      assert EntryOk(s, j);
    }
  }

  /**
   Acquiring succeeds exactly when no grant for the key is live; the new grant is live from now for its time to
   live (600 seconds by default), and no other key is touched.
   */
  lemma AcquireOutcome(s: State, key: string, holder: string, ttl: int, now: int)
    requires Inv(s, now)
    ensures var k, t := Norm(key), Acquire(s, key, holder, ttl, now);
      var granted := k != "" && !exists l :: l in Records(s) && l.key == k && LiveAt(l, now);
      && (AcquireError(s, key, now) == None <==> granted)
      && (!granted ==> t == s)
      && (granted ==>
           && k in t.byKey && t.byKey[k].id == s.nextId + 1 && t.byKey[k].key == k && t.byKey[k].jobId == ""
           && t.byKey[k].holder == (if Blank(holder) then "control-plane" else TrimSpace(holder))
           && (forall x :: LiveAt(t.byKey[k], x) <==> now <= x < now + (if ttl <= 0 then 600 else ttl))
           && t.byKey - {k} == s.byKey - {k} && t.byJob == s.byJob && s.history <= t.history)
  {
    hide Inv;
    hide TrimSpace;
    hide LiveAt;
    HeldIffLive(s, Norm(key), now);
    LiveSpan(NewLock(s.nextId + 1, Norm(key), holder, ttl, now));
  }

  lemma LiveSpan(l: Lock)
    requires l.status == Active && l.releasedAt.None?
    ensures forall x :: LiveAt(l, x) <==> l.acquiredAt <= x < l.expiresAt
  {}

  /** The grant on record for a key, released: live up to now and not after, in the history, its job forgotten. */
  ghost predicate Freed(s: State, t: State, k: string, l: Lock, now: int) {
    && k in s.byKey && l.id == s.byKey[k].id && l.key == k && l.holder == s.byKey[k].holder
    && l.jobId == s.byKey[k].jobId && l.status == (if s.byKey[k].status == Active then Released else s.byKey[k].status)
    && (forall x :: LiveAt(l, x) <==> LiveAt(s.byKey[k], x) && x < now)
    && t.byKey == s.byKey - {k} && t.history == s.history + [l] && t.nextId == s.nextId
    && t.byJob == (if l.jobId == "" then s.byJob else s.byJob - {l.jobId})
  }

  lemma RetiredIsFreed(s: State, k: string, now: int)
    requires Inv(s, now) && k in s.byKey
    ensures var l := if s.byKey[k].status == Active then EndedAt(s.byKey[k], Released, now) else s.byKey[k];
      Freed(s, Retire(s, k, l), k, l, now)
  {
    ActiveEntry(s, now, k);
    assert EntryOk(s, k);
  }

  /** A release that names a key frees that key, whatever the job, exactly when the table has it. */
  lemma ReleaseByKey(s: State, key: string, job: string, now: int)
    requires Inv(s, now) && !Blank(key)
    ensures var k, l, t := Norm(key), ReleasedLock(s, key, job, now), Release(s, key, job, now);
      && (l.Some? <==> k in s.byKey)
      && (l.None? ==> t == s)
      && (l.Some? ==> Freed(s, t, k, l.value, now))
      && AcquireError(t, key, now) == None
      && forall holder, ttl :: HeldAt(Acquire(t, key, holder, ttl, now), k, now)
  {
    hide TrimSpace, Inv, Freed;
    if Norm(key) in s.byKey {
      RetiredIsFreed(s, Norm(key), now);
      FreedIsFree(s, Release(s, key, job, now), Norm(key), ReleasedLock(s, key, job, now).value, now);
    }
    var t := Release(s, key, job, now);
    FreeKeyAcquired(t, key, "", 0, now);
    forall holder, ttl ensures HeldAt(Acquire(t, key, holder, ttl, now), Norm(key), now) {
      FreeKeyAcquired(t, key, holder, ttl, now);
    }
  }

  lemma FreeKeyAcquired(t: State, key: string, holder: string, ttl: int, now: int)
    requires !Blank(key) && Norm(key) !in t.byKey
    ensures AcquireError(t, key, now) == None && HeldAt(Acquire(t, key, holder, ttl, now), Norm(key), now)
  {
    hide TrimSpace;
  }

  lemma FreedIsFree(s: State, t: State, k: string, l: Lock, now: int)
    requires Freed(s, t, k, l, now)
    ensures k !in t.byKey
  {}

  /** A release that names only a job frees the key indexed under it, exactly when index and table have it. */
  lemma ReleaseByJob(s: State, key: string, job: string, now: int)
    requires Inv(s, now) && Blank(key)
    ensures var j, l, t := TrimSpace(job), ReleasedLock(s, key, job, now), Release(s, key, job, now);
      && (l.Some? <==> j != "" && j in s.byJob && s.byJob[j] in s.byKey)
      && (l.None? ==> t == s)
      && (l.Some? ==> Freed(s, t, s.byJob[j], l.value, now))
  {
    hide TrimSpace, Inv, Freed;
    NoBlankKey(s, now);
    var j := TrimSpace(job);
    if j != "" && j in s.byJob && s.byJob[j] in s.byKey { RetiredIsFreed(s, s.byJob[j], now); }
  }

  lemma NoBlankKey(s: State, now: int)
    requires Inv(s, now)
    ensures "" !in s.byKey
  {
    forall k | k in s.byKey ensures k != "" { assert EntryOk(s, k); }
  }

  /**
   Binding succeeds exactly while a grant for the key is live; then only the grant's job and the index change. Over an
   expired grant it fails and marks the grant.
   */
  lemma BindOutcome(s: State, key: string, job: string, now: int)
    requires Inv(s, now)
    ensures var k, j, t := Norm(key), TrimSpace(job), BindJob(s, key, job, now);
      var live := exists l :: l in Records(s) && l.key == k && LiveAt(l, now);
      && (BindError(s, key, job, now) == None <==> k != "" && j != "" && live)
      && (k != "" && j != "" && live ==>
           && k in s.byKey && t.byKey == s.byKey[k := s.byKey[k].(jobId := j)] && t.byJob == s.byJob[j := k]
           && t.history == s.history && t.nextId == s.nextId)
      && (BindError(s, key, job, now) == Some(LockExpired) ==>
           && k in s.byKey && s.byKey[k].status == Active && s.byKey[k].expiresAt <= now
           && t.byKey == s.byKey[k := s.byKey[k].(status := Expired, releasedAt := Some(now))]
           && t.history == s.history + [t.byKey[k]] && t.byJob == s.byJob && t.nextId == s.nextId)
      && (BindError(s, key, job, now) in {Some(KeyAndJobRequired), Some(NotActive)} ==> t == s)
  {
    hide Inv, TrimSpace, LiveAt;
    HeldIffLive(s, Norm(key), now);
  }

  /** Clean-up takes exactly the overdue grants out of the table, whatever the order, and puts them on record. */
  lemma CleanupOutcome(s: State, order: seq<string>, now: int)
    requires IsOrder(s, order)
    ensures var t := Cleanup(s, order, now);
      && (forall k :: k in t.byKey <==> k in s.byKey && !(s.byKey[k].status == Active && s.byKey[k].expiresAt <= now))
      && (forall k :: k in t.byKey ==> t.byKey[k] == s.byKey[k])
      && (forall j :: j in t.byJob ==> j in s.byJob && t.byJob[j] == s.byJob[j])
      && (forall k :: k in s.byKey && k !in t.byKey ==>
            && s.byKey[k].(status := Expired, releasedAt := Some(now)) in t.history
            && (s.byKey[k].jobId != "" ==> s.byKey[k].jobId !in t.byJob))
      && s.history <= t.history && t.nextId == s.nextId
  {
    assert forall k :: k in order <==> k in s.byKey by { assert forall k :: k in order <==> k in Elems(order); }
    CleanupParts(s, order, now);
  }

  lemma {:induction false} CleanupParts(s: State, order: seq<string>, now: int)
    requires NoDup(order) && forall k :: k in order ==> k in s.byKey
    ensures var t := Cleanup(s, order, now);
      && (forall k :: k in t.byKey <==> k in s.byKey && !(k in order && OverdueAt(s, k, now)))
      && (forall k :: k in t.byKey ==> t.byKey[k] == s.byKey[k])
      && (forall j :: j in t.byJob ==> j in s.byJob && t.byJob[j] == s.byJob[j])
      && (forall k :: k in order && OverdueAt(s, k, now) ==>
            && EndedAt(s.byKey[k], Expired, now) in t.history
            && (s.byKey[k].jobId != "" ==> s.byKey[k].jobId !in t.byJob))
      && s.history <= t.history && t.nextId == s.nextId
  {
    if order != [] {
      var front, k := order[..|order| - 1], order[|order| - 1];
      assert order == front + [k] && k !in front;
      CleanupParts(s, front, now);
    }
  }

  /** In every run, no two grants for one key are ever live at the same time. */
  lemma GrantsNeverOverlap(states: seq<State>, ops: seq<Op>, clock: int, n: nat, a: Lock, b: Lock, t: int)
    requires IsRun(states, ops, clock) && n <= |ops|
    requires a in Records(states[n]) && b in Records(states[n]) && a.key == b.key && a.id != b.id
    ensures !(LiveAt(a, t) && LiveAt(b, t))
  {
    RunOk(states, ops, clock, n);
    assert Ordered(a, b) && Ordered(b, a);
  }

  /** In every run, every lock ever issued is on record, and the history holds no active lock. */
  lemma NothingLost(states: seq<State>, ops: seq<Op>, clock: int, n: nat, id: nat)
    requires IsRun(states, ops, clock) && n <= |ops| && 1 <= id <= states[n].nextId
    ensures HasId(Records(states[n]), id)
    ensures forall h :: h in states[n].history ==> h.status != Active
  {
    RunOk(states, ops, clock, n);
  }

  // --------------------------------------------------------------- job index

  /** The index lists exactly the jobs of the locks in the table. */
  ghost predicate IndexExact(s: State) {
    forall j, k :: Consistent(s, j, k)
  }

  predicate Consistent(s: State, j: string, k: string) {
    (j in s.byJob && s.byJob[j] == k) <==> (j != "" && k in s.byKey && s.byKey[k].jobId == j)
  }

  /** What a caller can check beforehand: the step neither overwrites a bound lock nor rebinds. */
  predicate IndexSafe(s: State, op: Op) {
    match op
    case AcquireOp(key, _, _, now) =>
      AcquireError(s, key, now) == None && Norm(key) in s.byKey ==> s.byKey[Norm(key)].jobId == ""
    case BindOp(key, job, now) =>
      BindError(s, key, job, now) == None ==>
        var k, j := Norm(key), TrimSpace(job);
        (s.byKey[k].jobId == "" || s.byKey[k].jobId == j) && (j in s.byJob ==> s.byJob[j] == k)
    case _ => true
  }

  lemma AcquireIndex(s: State, key: string, holder: string, ttl: int, now: int)
    requires IndexExact(s)
    ensures IndexExact(Acquire(s, key, holder, ttl, now)) <==> IndexSafe(s, AcquireOp(key, holder, ttl, now))
  {
    hide TrimSpace;
    hide Norm;
    var k, t := Norm(key), Acquire(s, key, holder, ttl, now);
    if !IndexSafe(s, AcquireOp(key, holder, ttl, now)) {
      assert Consistent(s, s.byKey[k].jobId, k);
      assert !Consistent(t, s.byKey[k].jobId, k);
    } else {
      forall i, x ensures Consistent(t, i, x) { assert Consistent(s, i, x); }
    }
  }

  lemma BindIndex(s: State, key: string, job: string, now: int)
    requires IndexExact(s)
    ensures IndexExact(BindJob(s, key, job, now)) <==> IndexSafe(s, BindOp(key, job, now))
  {
    hide TrimSpace;
    hide Norm;
    var k, j, t := Norm(key), TrimSpace(job), BindJob(s, key, job, now);
    if !IndexSafe(s, BindOp(key, job, now)) {
      var before := s.byKey[k].jobId;
      if before != "" && before != j {
        assert Consistent(s, before, k);
        assert !Consistent(t, before, k);
      } else {
        assert Consistent(s, j, s.byJob[j]);
        assert !Consistent(t, j, s.byJob[j]);
      }
    } else {
      forall i, x ensures Consistent(t, i, x) {
        assert Consistent(s, i, x);
        assert Consistent(s, i, k);
      }
    }
  }

  lemma RetireIndex(s: State, k: string, m: Lock)
    requires IndexExact(s) && k in s.byKey && m.jobId == s.byKey[k].jobId
    ensures IndexExact(Retire(s, k, m))
  {
    forall j, x ensures Consistent(Retire(s, k, m), j, x) {
      assert Consistent(s, j, x);
      assert Consistent(s, j, k);
    }
  }

  lemma {:induction false} CleanupIndex(s: State, order: seq<string>, now: int)
    requires IndexExact(s)
    ensures IndexExact(Cleanup(s, order, now))
  {
    hide IndexExact;
    if order != [] {
      var t, k := Cleanup(s, order[..|order| - 1], now), order[|order| - 1];
      CleanupIndex(s, order[..|order| - 1], now);
      if OverdueAt(t, k, now) { RetireIndex(t, k, EndedAt(t.byKey[k], Expired, now)); }
    }
  }

  /** From an exact index, a step leaves the index exact exactly when it is safe. */
  lemma IndexKeptIffSafe(s: State, op: Op)
    requires IndexExact(s)
    ensures IndexExact(Step(s, op)) <==> IndexSafe(s, op)
  {
    hide IndexExact;
    hide Norm;
    hide TrimSpace;
    match op {
      case AcquireOp(key, holder, ttl, now) => AcquireIndex(s, key, holder, ttl, now);
      case BindOp(key, job, now) => BindIndex(s, key, job, now);
      case ReleaseOp(key, job, now) =>
        var l := ReleasedLock(s, key, job, now);
        if l.Some? { RetireIndex(s, ReleaseKey(s, key, job), l.value); }
      case CleanupOp(order, now) => CleanupIndex(s, order, now);
    }
  }

  /** With an exact index, releasing by job frees the lock bound to that job or nothing. */
  lemma ReleaseByJobFreesItsOwn(s: State, key: string, job: string, now: int)
    requires IndexExact(s) && Norm(key) == "" && !Blank(job)
    ensures var l := ReleasedLock(s, key, job, now); l.Some? ==> l.value.jobId == TrimSpace(job)
    ensures ReleasedLock(s, key, job, now).None? <==> forall k :: k in s.byKey && k != "" ==> s.byKey[k].jobId != TrimSpace(job)
  {
    hide Norm;
    hide TrimSpace;
    var j := TrimSpace(job);
    if j in s.byJob { assert Consistent(s, j, s.byJob[j]); }
    forall k | k in s.byKey && s.byKey[k].jobId == j ensures j in s.byJob && s.byJob[j] == k {
      assert Consistent(s, j, k);
    }
  }

  // -------------------------------------------------------- disciplined runs

  /** A state with what a disciplined caller keeps track of. */
  datatype Tracked = Tracked(s: State, grants: set<nat>, jobs: set<string>, cleanedAt: Option<int>)

  /** One BindJob call per grant and per job, and a clean-up before each Acquire at the same clock value. */
  ghost predicate Disciplined(t: Tracked, op: Op) {
    match op
    case AcquireOp(_, _, _, now) => t.cleanedAt == Some(now)
    case BindOp(key, job, _) =>
      (Norm(key) in t.s.byKey ==> t.s.byKey[Norm(key)].id !in t.grants) && TrimSpace(job) !in t.jobs
    case _ => true
  }

  /** A clean-up counts for as long as the clock shows the same value, whatever else is called meanwhile. */
  function Track(t: Tracked, op: Op): Tracked {
    var s, cleaned := Step(t.s, op), if t.cleanedAt == Some(op.now) then t.cleanedAt else None;
    match op
    case BindOp(key, job, _) =>
      Tracked(s, if Norm(key) in t.s.byKey then t.grants + {t.s.byKey[Norm(key)].id} else t.grants,
              t.jobs + {TrimSpace(job)}, cleaned)
    case CleanupOp(_, now) => Tracked(s, t.grants, t.jobs, Some(now))
    case _ => Tracked(s, t.grants, t.jobs, cleaned)
  }

  ghost predicate TrackOk(t: Tracked) {
    && IndexExact(t.s)
    && (forall k :: k in t.s.byKey ==> EntryTracked(t, k))
    && (forall j :: j in t.s.byJob ==> j in t.jobs)
  }

  ghost predicate EntryTracked(t: Tracked, k: string)
    requires k in t.s.byKey
  {
    var l := t.s.byKey[k];
    && l.id <= t.s.nextId
    && (l.jobId != "" ==> l.id in t.grants && l.status == Active)
    && (t.cleanedAt.Some? && l.status == Active ==> t.cleanedAt.value < l.expiresAt)
  }

  lemma DisciplinedIsSafe(t: Tracked, op: Op)
    requires TrackOk(t) && Disciplined(t, op)
    ensures IndexSafe(t.s, op)
  {
    hide IndexExact;
    hide Norm;
    hide TrimSpace;
    match op {
      case AcquireOp(key, _, _, _) => if Norm(key) in t.s.byKey { assert EntryTracked(t, Norm(key)); }
      case BindOp(key, _, _) => if Norm(key) in t.s.byKey { assert EntryTracked(t, Norm(key)); }
      case _ =>
    }
  }

  /** Clean-up drops whole entries; what is left is unchanged and not overdue. */
  lemma {:induction false} CleanupLeaves(s: State, order: seq<string>, now: int)
    ensures var t := Cleanup(s, order, now);
      && t.nextId == s.nextId
      && (forall j :: j in t.byJob ==> j in s.byJob)
      && (forall k :: k in t.byKey ==> k in s.byKey && t.byKey[k] == s.byKey[k])
      && (forall k :: k in order ==> !OverdueAt(t, k, now))
  {
    if order != [] {
      var front, k := order[..|order| - 1], order[|order| - 1];
      CleanupLeaves(s, front, now);
      assert order == front + [k];
    }
  }

  lemma TrackStep(t: Tracked, op: Op)
    requires TrackOk(t) && Disciplined(t, op) && Possible(t.s, op)
    ensures TrackOk(Track(t, op))
  {
    hide IndexExact;
    hide Norm;
    hide TrimSpace;
    DisciplinedIsSafe(t, op);
    IndexKeptIffSafe(t.s, op);
    var u := Track(t, op);
    if op.CleanupOp? { CleanupLeaves(t.s, op.order, op.now); }
    forall k | k in u.s.byKey ensures EntryTracked(u, k) {
      if k in t.s.byKey { assert EntryTracked(t, k); }
      if op.CleanupOp? { assert k in Elems(op.order); }
    }
  }

  ghost predicate IsDisciplinedRun(ts: seq<Tracked>, ops: seq<Op>) {
    && |ts| == |ops| + 1 && ts[0] == Tracked(INITIAL, {}, {}, None)
    && forall i :: 0 <= i < |ops| ==>
         Possible(ts[i].s, ops[i]) && Disciplined(ts[i], ops[i]) && ts[i + 1] == Track(ts[i], ops[i])
  }

  lemma {:induction false} DisciplinedTracked(ts: seq<Tracked>, ops: seq<Op>, n: nat)
    requires IsDisciplinedRun(ts, ops) && n <= |ops|
    ensures TrackOk(ts[n])
  {
    hide TrackOk;
    if n == 0 {
      assert TrackOk(Tracked(INITIAL, {}, {}, None)) by { InitialTracked(); }
    } else {
      DisciplinedTracked(ts, ops, n - 1);
      TrackStep(ts[n - 1], ops[n - 1]);
    }
  }

  lemma InitialTracked()
    ensures TrackOk(Tracked(INITIAL, {}, {}, None))
  {}

  /** In disciplined runs the index is always exact, so releasing by job frees only that job's lock. */
  lemma DisciplinedRunsKeepIndex(ts: seq<Tracked>, ops: seq<Op>, n: nat, job: string, now: int)
    requires IsDisciplinedRun(ts, ops) && n <= |ops| && !Blank(job)
    ensures IndexExact(ts[n].s)
    ensures var l := ReleasedLock(ts[n].s, "", job, now); l.Some? ==> l.value.jobId == TrimSpace(job)
  {
    hide IndexExact;
    DisciplinedTracked(ts, ops, n);
    ReleaseByJobFreesItsOwn(ts[n].s, "", job, now);
  }

  /**
   Without the clean-up the index goes stale: after a lock bound to a job runs out and the key is granted
   again, releasing by that job frees the new grant, which is bound to no job.
   */
  lemma StaleIndexFreesAnotherGrant(key: string, job: string)
    requires Norm(key) != "" && !Blank(job)
    ensures var bound := BindJob(Acquire(INITIAL, key, "a", 1, 0), key, job, 0);
      var again := Acquire(bound, key, "b", 60, 5);
      var freed := ReleasedLock(again, "", job, 6);
      && IndexExact(bound) && !IndexExact(again)
      && freed.Some? && freed.value.id == 2 && freed.value.jobId == ""
      && HeldAt(again, Norm(key), 6) && !HeldAt(Release(again, "", job, 6), Norm(key), 6)
  {
    hide TrimSpace;
    hide Norm;
    assert Norm("") == "";
    var first := Acquire(INITIAL, key, "a", 1, 0);
    var bound := BindJob(first, key, job, 0);
    assert bound.byJob == map[TrimSpace(job) := Norm(key)];
    assert IndexExact(bound);
    IndexKeptIffSafe(bound, AcquireOp(key, "b", 60, 5));
  }

  // ------------------------------------------------------------------- store

  class ExecutionLockStore {
    var nextId: nat
    var byKey: map<string, Lock>
    var byJob: map<string, string>
    var history: seq<Lock>

    function Snapshot(): State
      reads this
    {
      State(nextId, byKey, byJob, history)
    }

    constructor ()
      ensures Snapshot() == INITIAL
    {
      nextId, byKey, byJob, history := 0, map[], map[], [];
    }

    method AcquireLock(rawKey: string, rawHolder: string, ttlSeconds: int, now: int) returns (error: Option<Error>)
      modifies this
      ensures error == AcquireError(old(Snapshot()), rawKey, now)
      ensures Snapshot() == Acquire(old(Snapshot()), rawKey, rawHolder, ttlSeconds, now)
    {
      hide TrimSpace;
      hide Norm;
      var key := Norm(rawKey);
      var holder := TrimSpace(rawHolder);
      if key == "" { return Some(KeyRequired); }
      if holder == "" { holder := "control-plane"; }
      var ttl := ttlSeconds;
      if ttl <= 0 { ttl := 600; }
      if key in byKey {
        var current := byKey[key];
        if current.status == Active && now < current.expiresAt { return Some(Held); }
        if current.status == Active && now >= current.expiresAt {
          current := current.(status := Expired, releasedAt := Some(now));
          history := history + [current];
        }
      }
      nextId := nextId + 1;
      byKey := byKey[key := Lock(nextId, key, holder, "", now, now + ttl, None, Active)];
      return None;
    }

    method Bind(rawKey: string, rawJob: string, now: int) returns (error: Option<Error>)
      modifies this
      ensures error == BindError(old(Snapshot()), rawKey, rawJob, now)
      ensures Snapshot() == BindJob(old(Snapshot()), rawKey, rawJob, now)
    {
      hide TrimSpace;
      hide Norm;
      var key, job := Norm(rawKey), TrimSpace(rawJob);
      if key == "" || job == "" { return Some(KeyAndJobRequired); }
      if key !in byKey || byKey[key].status != Active { return Some(NotActive); }
      var item := byKey[key];
      if now >= item.expiresAt {
        item := item.(status := Expired, releasedAt := Some(now));
        byKey, history := byKey[key := item], history + [item];
        return Some(LockExpired);
      }
      byKey, byJob := byKey[key := item.(jobId := job)], byJob[job := key];
      return None;
    }

    method ReleaseLock(rawKey: string, rawJob: string, now: int) returns (released: Option<Lock>)
      modifies this
      ensures released == ReleasedLock(old(Snapshot()), rawKey, rawJob, now)
      ensures Snapshot() == Release(old(Snapshot()), rawKey, rawJob, now)
    {
      hide TrimSpace;
      hide Norm;
      var key, job := Norm(rawKey), TrimSpace(rawJob);
      if key == "" && job != "" { key := if job in byJob then byJob[job] else ""; }
      if key == "" || key !in byKey { return None; }
      var item := byKey[key];
      if item.status == Active { item := item.(status := Released, releasedAt := Some(now)); }
      if item.jobId != "" { byJob := byJob - {item.jobId}; }
      history := history + [item];
      byKey := byKey - {key};
      return Some(item);
    }

    /** Ranges over the table while deleting from it, and reports what expired by ascending key. */
    method CleanupExpired(now: int) returns (expired: seq<Lock>, ghost order: seq<string>)
      modifies this
      ensures IsOrder(old(Snapshot()), order)
      ensures Snapshot() == Cleanup(old(Snapshot()), order, now)
      ensures IsExpiredList(old(Snapshot()), now, expired) && |history| == |old(history)| + |expired|
    {
      hide IsExpiredList, Ascending, Elems;
      ghost var s := Snapshot();
      var gone;
      gone, order := RemoveExpired(now);
      var keys := SortKeys(gone.Keys);
      SortedAreKeys(gone.Keys);
      expired := LocksOf(gone, keys);
      ExpiredListed(s, now, gone, expired);
    }

    method RemoveExpired(now: int) returns (gone: map<string, Lock>, ghost order: seq<string>)
      modifies this
      ensures IsOrder(old(Snapshot()), order)
      ensures Snapshot() == Cleanup(old(Snapshot()), order, now)
      ensures gone.Keys == OverdueKeys(old(Snapshot()), now) && |history| == |old(history)| + |gone|
      ensures forall k :: k in gone ==> gone[k] == EndedAt(old(byKey)[k], Expired, now)
    {
      hide Cleanup, CleanupOne, OverdueAt, OverdueKeys, EndedAt, Gone, Visiting, IsOrder;
      order, gone := [], map[];
      ghost var s := Snapshot();
      var rest := byKey.Keys;
      CleanupNone(s, now);
      while rest != {}
        invariant Visiting(s, Snapshot(), rest, order) && Snapshot() == Cleanup(s, order, now)
        invariant Gone(s, now, rest, gone) && |history| == |s.history| + |gone|
      {
        var key :| key in rest;
        VisitNext(s, Snapshot(), rest, order, key, now);
        GoneNext(s, now, rest, gone, key);
        rest, order := rest - {key}, order + [key];
        var ended := RemoveIfExpired(key, now);
        if ended.Some? { gone := gone[key := ended.value]; }
      }
      AllVisited(s, Snapshot(), order);
      AllGone(s, now, gone);
    }

    /** The body of the clean-up loop. */
    method RemoveIfExpired(key: string, now: int) returns (ended: Option<Lock>)
      requires key in byKey
      modifies this
      ensures Snapshot() == CleanupOne(old(Snapshot()), key, now)
      ensures ended == if OverdueAt(old(Snapshot()), key, now) then Some(EndedAt(old(byKey)[key], Expired, now)) else None
      ensures |history| == |old(history)| + if ended.Some? then 1 else 0
    {
      var item := byKey[key];
      if item.status != Active || now < item.expiresAt { return None; }
      item := item.(status := Expired, releasedAt := Some(now));
      history := history + [item];
      if item.jobId != "" { byJob := byJob - {item.jobId}; }
      byKey := byKey - {key};
      return Some(item);
    }
  }

  lemma CleanupNone(s: State, now: int)
    ensures Cleanup(s, [], now) == s && Visiting(s, s, s.byKey.Keys, [])
    ensures Gone(s, now, s.byKey.Keys, map[])
  {}

  /** The ended locks collected once the keys outside `rest` have been visited. */
  ghost predicate Gone(s: State, now: int, rest: set<string>, gone: map<string, Lock>) {
    && gone.Keys == OverdueKeys(s, now) - rest
    && forall k :: k in gone ==> gone[k] == EndedAt(s.byKey[k], Expired, now)
  }

  lemma GoneNext(s: State, now: int, rest: set<string>, gone: map<string, Lock>, key: string)
    requires Gone(s, now, rest, gone) && key in rest && key in s.byKey
    ensures key !in gone
    ensures OverdueAt(s, key, now) ==> Gone(s, now, rest - {key}, gone[key := EndedAt(s.byKey[key], Expired, now)])
    ensures !OverdueAt(s, key, now) ==> Gone(s, now, rest - {key}, gone)
  {}

  lemma AllGone(s: State, now: int, gone: map<string, Lock>)
    requires Gone(s, now, {}, gone)
    ensures gone.Keys == OverdueKeys(s, now)
    ensures forall k :: k in gone ==> k in s.byKey && gone[k] == EndedAt(s.byKey[k], Expired, now)
  {}

  /** The keys outside `rest` have been visited in order; the entries still to come are as they were. */
  ghost predicate Visiting(s: State, t: State, rest: set<string>, order: seq<string>) {
    && rest <= s.byKey.Keys && Elems(order) == s.byKey.Keys - rest && NoDup(order)
    && forall k :: k in rest ==> k in t.byKey && t.byKey[k] == s.byKey[k]
  }

  lemma VisitNext(s: State, t: State, rest: set<string>, order: seq<string>, key: string, now: int)
    requires Visiting(s, t, rest, order) && key in rest && t == Cleanup(s, order, now)
    ensures key in s.byKey && key in t.byKey && t.byKey[key] == s.byKey[key]
    ensures OverdueAt(t, key, now) == OverdueAt(s, key, now)
    ensures var u := CleanupOne(t, key, now);
      Visiting(s, u, rest - {key}, order + [key]) && u == Cleanup(s, order + [key], now)
  {
    assert (order + [key])[..|order|] == order;
    assert key !in Elems(order);
    assert Elems(order + [key]) == Elems(order) + {key};
  }

  lemma AllVisited(s: State, t: State, order: seq<string>)
    requires Visiting(s, t, {}, order)
    ensures IsOrder(s, order)
  {}

  method LocksOf(table: map<string, Lock>, keys: seq<string>) returns (out: seq<Lock>)
    requires forall i :: 0 <= i < |keys| ==> keys[i] in table
    ensures |out| == |keys| && forall i :: 0 <= i < |keys| ==> out[i] == table[keys[i]]
  {
    out := [];
    for i := 0 to |keys|
      invariant |out| == i && forall k :: 0 <= k < i ==> out[k] == table[keys[k]]
    {
      out := out + [table[keys[i]]];
    }
  }

  lemma SortedAreKeys(keys: set<string>)
    ensures forall i :: 0 <= i < |SortedElems(keys)| ==> SortedElems(keys)[i] in keys
  {
    var r := SortedElems(keys);
    forall i | 0 <= i < |r| ensures r[i] in keys { assert r[i] in Elems(r); }
  }

  lemma ExpiredListed(s: State, now: int, gone: map<string, Lock>, out: seq<Lock>)
    requires gone.Keys == OverdueKeys(s, now) && forall k :: k in gone ==> gone[k] == EndedAt(s.byKey[k], Expired, now)
    requires var keys := SortedElems(gone.Keys);
      |out| == |keys| && forall i :: 0 <= i < |keys| ==> keys[i] in gone && out[i] == gone[keys[i]]
    ensures IsExpiredList(s, now, out) && |out| == |gone|
  {
    hide Ascending;
    assert |gone| == |gone.Keys|;
  }
}
