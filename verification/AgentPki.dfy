/**
 Agent certificate signing requests and certificates (internal/control/agent_pki.go).
 Main results: in every run rotation links lead forward to later certificates of the same agent and are set
 once, and every certificate is accounted for; renewal renews each expiring certificate exactly once, and reports
 exactly the new ones, whatever the map order, for horizons below the certificate lifetime; at or above it a walk over
 the map may go on without bound.
 Identifiers are the numbers behind "csr-n" and "cert-n"; times are in seconds.
 */
module AgentPki {
  import opened Wrappers
  import opened Text
  import opened Normalize

  /** 90 days, in seconds. */
  const LIFETIME: int := 7_776_000

  datatype CertStatus = Active | Revoked | Rotated

  datatype Cert = Cert(
    agent: string, status: CertStatus, issuedAt: int, expiresAt: int, revokedAt: Option<int>, rotatedBy: Option<nat>)

  datatype CsrStatus = Pending | Rejected | Issued

  datatype Csr = Csr(
    agent: string, attributes: map<string, string>, status: CsrStatus, reason: string, cert: Option<nat>,
    createdAt: int, updatedAt: int)

  datatype Policy = Policy(autoApprove: bool, required: map<string, string>, updatedAt: int)

  datatype State = State(nextCsr: nat, nextCert: nat, policy: Policy, csrs: map<nat, Csr>, certs: map<nat, Cert>)

  /** An empty store; its policy dates from its creation. */
  function Initial(now: int): State {
    State(0, 0, Policy(false, map[], now), map[], map[])
  }

  datatype Error = AgentRequired | BadDecision | NotFound | NotPending

  // ------------------------------------------------------------- operations

  function NewCert(agent: string, now: int): Cert {
    Cert(agent, Active, now, now + LIFETIME, None, None)
  }

  function Issue(s: State, agent: string, now: int): State {
    s.(nextCert := s.nextCert + 1, certs := s.certs[s.nextCert + 1 := NewCert(agent, now)])
  }

  /** A missing attribute counts as empty. */
  predicate Matches(attributes: map<string, string>, required: map<string, string>) {
    forall k :: k in required ==> (if k in attributes then TrimSpace(attributes[k]) else "") == required[k]
  }

  function Submit(s: State, agent: string, attributes: map<string, string>, now: int): State {
    if Blank(agent) then s
    else
      var a, id := TrimSpace(agent), s.nextCsr + 1;
      var csr := Csr(a, attributes, Pending, "", None, now, now);
      if s.policy.autoApprove && Matches(attributes, s.policy.required) then
        Issue(s, a, now).(nextCsr := id, csrs := s.csrs[id := csr.(status := Issued, cert := Some(s.nextCert + 1))])
      else
        s.(nextCsr := id, csrs := s.csrs[id := csr])
  }

  function DecideError(s: State, id: nat, decision: string): Option<Error> {
    if Norm(decision) != "approve" && Norm(decision) != "reject" then Some(BadDecision)
    else if id !in s.csrs then Some(NotFound)
    else if s.csrs[id].status != Pending then Some(NotPending)
    else None
  }

  function Decide(s: State, id: nat, decision: string, reason: string, now: int): State {
    if DecideError(s, id, decision).Some? then s
    else if Norm(decision) == "approve" then
      var csr := s.csrs[id].(status := Issued, cert := Some(s.nextCert + 1), updatedAt := now);
      Issue(s, csr.agent, now).(csrs := s.csrs[id := csr])
    else
      s.(csrs := s.csrs[id := s.csrs[id].(status := Rejected, reason := TrimSpace(reason), updatedAt := now)])
  }

  function Revoke(s: State, id: nat, now: int): State {
    if id in s.certs && s.certs[id].status != Revoked then
      s.(certs := s.certs[id := s.certs[id].(status := Revoked, revokedAt := Some(now))])
    else s
  }

  /** The certificate is retired in favour of a new one for the same agent. */
  function Replace(s: State, id: nat, now: int): State
    requires id in s.certs
  {
    var n := s.nextCert + 1;
    var retired := s.certs[id].(status := Rotated, rotatedBy := Some(n));
    s.(nextCert := n, certs := s.certs[id := retired][n := NewCert(s.certs[id].agent, now)])
  }

  predicate ActiveFor(s: State, agent: string, id: nat) {
    id in s.certs && s.certs[id].agent == agent && s.certs[id].status == Active
  }

  /** Ranging over the map may settle on any active certificate with the greatest issue time. */
  ghost predicate LatestActive(s: State, agent: string, latest: Option<nat>) {
    match latest
    case None => forall id :: !ActiveFor(s, agent, id)
    case Some(l) => ActiveFor(s, agent, l) && forall id :: ActiveFor(s, agent, id) ==> s.certs[id].issuedAt <= s.certs[l].issuedAt
  }

  function Rotate(s: State, agent: string, latest: Option<nat>, now: int): State
    requires latest.Some? ==> latest.value in s.certs
  {
    if Blank(agent) then s
    else match latest
      case None => Issue(s, TrimSpace(agent), now)
      case Some(l) => Replace(s, l, now)
  }

  // ---------------------------------------------------------------- renewal

  function Within(hours: int): int {
    if hours <= 0 then 72 else hours
  }

  function Threshold(hours: int, now: int): int {
    now + 3600 * Within(hours)
  }

  predicate Qualifies(c: Cert, threshold: int) {
    c.status == Active && c.expiresAt <= threshold
  }

  /** One turn of the loop over the map: the certificate visited, and the clock should it be renewed. */
  datatype Visit = Visit(id: nat, at: int)

  function RenewVisit(s: State, threshold: int, v: Visit): State
    requires v.id in s.certs
  {
    if Qualifies(s.certs[v.id], threshold) then Replace(s, v.id, v.at) else s
  }

  /**
   What ranging over a map that grows meanwhile may do: visit existing entries, each at most once,
   old and new ones alike; `RenewRun` is the state after the visits.
   */
  ghost predicate LegalVisits(s: State, threshold: int, now: int, vs: seq<Visit>)
    decreases |vs|, 0
  {
    vs == [] ||
    var front, v := vs[..|vs| - 1], vs[|vs| - 1];
    && LegalVisits(s, threshold, now, front)
    && v.id in RenewRun(s, threshold, now, front).certs
    && (forall w :: w in front ==> w.id != v.id)
    && v.at >= now
  }

  ghost function RenewRun(s: State, threshold: int, now: int, vs: seq<Visit>): State
    requires LegalVisits(s, threshold, now, vs)
    decreases |vs|, 1
  {
    if vs == [] then s
    else RenewVisit(RenewRun(s, threshold, now, vs[..|vs| - 1]), threshold, vs[|vs| - 1])
  }

  ghost predicate Visited(vs: seq<Visit>, id: nat) {
    exists v :: v in vs && v.id == id
  }

  /** Every entry that was there when the loop began is visited. */
  ghost predicate Complete(s: State, vs: seq<Visit>) {
    forall id :: id in s.certs ==> Visited(vs, id)
  }

  // -------------------------------------------------------------- invariant

  ghost predicate NumberedFrom1<T>(m: map<nat, T>, last: nat) {
    forall id: nat :: id in m <==> 1 <= id <= last
  }

  ghost predicate CertOk(s: State, id: nat)
    requires id in s.certs
  {
    var c := s.certs[id];
    && (c.status == Active ==> c.rotatedBy == None)
    && (c.status == Rotated ==> c.rotatedBy.Some?)
    && (c.status == Revoked <==> c.revokedAt.Some?)
    && c.expiresAt == c.issuedAt + LIFETIME
    && (c.rotatedBy.Some? ==> id < c.rotatedBy.value && c.rotatedBy.value in s.certs && s.certs[c.rotatedBy.value].agent == c.agent)
  }

  ghost predicate CsrOk(s: State, id: nat)
    requires id in s.csrs
  {
    var r := s.csrs[id];
    && (r.status == Issued <==> r.cert.Some?)
    && (r.cert.Some? ==> r.cert.value in s.certs && s.certs[r.cert.value].agent == r.agent)
  }

  ghost predicate Inv(s: State) {
    && NumberedFrom1(s.certs, s.nextCert) && NumberedFrom1(s.csrs, s.nextCsr)
    && (forall id :: id in s.certs ==> CertOk(s, id))
    && (forall id :: id in s.csrs ==> CsrOk(s, id))
    && (forall i, j :: i in s.csrs && j in s.csrs && i != j && s.csrs[i].cert.Some? ==> s.csrs[i].cert != s.csrs[j].cert)
  }

  /** What no step may change: owners and dates, a link once set, and the certificate of an issued request. */
  ghost predicate Keeps(s: State, t: State) {
    && (forall id :: id in s.certs ==> id in t.certs && CertKept(s.certs[id], t.certs[id]))
    && (forall id :: id in s.csrs ==> id in t.csrs && CsrKept(s.csrs[id], t.csrs[id]))
    && s.nextCert <= t.nextCert && s.nextCsr <= t.nextCsr
  }

  predicate CertKept(c: Cert, d: Cert) {
    && d.agent == c.agent && d.issuedAt == c.issuedAt && d.expiresAt == c.expiresAt
    && (c.rotatedBy.Some? ==> d.rotatedBy == c.rotatedBy)
    && (c.status != Active ==> d.status != Active)
    && (c.status == Revoked ==> d == c)
  }

  predicate CsrKept(c: Csr, d: Csr) {
    && d.agent == c.agent && d.attributes == c.attributes
    && (c.status != Pending ==> d == c)
  }

  lemma IssueKeeps(s: State, agent: string, now: int)
    requires Inv(s)
    ensures Inv(Issue(s, agent, now)) && Keeps(s, Issue(s, agent, now))
    ensures s.nextCert + 1 !in s.certs
  {
    hide CertOk;
    hide CsrOk;
    var t := Issue(s, agent, now);
    forall j | j in t.certs ensures CertOk(t, j) { IssueKeepsCert(s, agent, now, j); }
    forall j | j in t.csrs ensures CsrOk(t, j) { IssueKeepsCsr(s, agent, now, j); }
  }

  lemma IssueKeepsCert(s: State, agent: string, now: int, j: nat)
    requires j in s.certs ==> CertOk(s, j) && j != s.nextCert + 1
    requires s.nextCert + 1 !in s.certs && j in Issue(s, agent, now).certs
    ensures CertOk(Issue(s, agent, now), j)
  {}

  lemma IssueKeepsCsr(s: State, agent: string, now: int, j: nat)
    requires j in s.csrs && CsrOk(s, j) && s.nextCert + 1 !in s.certs
    ensures CsrOk(Issue(s, agent, now), j)
  {}

  lemma ReplaceKeeps(s: State, id: nat, now: int)
    requires Inv(s) && id in s.certs && s.certs[id].status == Active
    ensures Inv(Replace(s, id, now)) && Keeps(s, Replace(s, id, now))
  {
    hide CertOk, CsrOk, NumberedFrom1;
    var t, n := Replace(s, id, now), s.nextCert + 1;
    InRange(s.certs, s.nextCert, id);
    NumbersStay(s.certs, s.nextCert, n, NewCert(s.certs[id].agent, now));
    NumbersStay(s.certs[n := NewCert(s.certs[id].agent, now)], n, id, t.certs[id]);
    assert t.certs == s.certs[n := NewCert(s.certs[id].agent, now)][id := t.certs[id]];
    forall j | j in t.certs ensures CertOk(t, j) { ReplaceKeepsCert(s, id, now, j); }
    forall j | j in t.csrs ensures CsrOk(t, j) { ReplaceKeepsCsr(s, id, now, j); }
    ReplaceKept(s, id, now);
  }

  lemma InRange<T>(m: map<nat, T>, last: nat, id: nat)
    requires NumberedFrom1(m, last) && id in m
    ensures 1 <= id <= last
  {}

  lemma ReplaceKeepsCert(s: State, id: nat, now: int, j: nat)
    requires id in s.certs && s.certs[id].status == Active && s.nextCert + 1 !in s.certs && id <= s.nextCert
    requires j in Replace(s, id, now).certs && (j in s.certs ==> CertOk(s, j))
    ensures CertOk(Replace(s, id, now), j)
  {}

  lemma ReplaceKeepsCsr(s: State, id: nat, now: int, j: nat)
    requires id in s.certs && s.nextCert + 1 !in s.certs && j in s.csrs && CsrOk(s, j)
    ensures CsrOk(Replace(s, id, now), j)
  {}

  lemma ReplaceKept(s: State, id: nat, now: int)
    requires Inv(s) && id in s.certs && s.certs[id].status == Active
    ensures Keeps(s, Replace(s, id, now))
  {
    hide CsrOk;
    assert CertOk(s, id);
  }

  /** Storing a request: a new one, or the decision on a pending one. */
  function PutCsr(s: State, id: nat, csr: Csr): State {
    s.(nextCsr := if id == s.nextCsr + 1 then id else s.nextCsr, csrs := s.csrs[id := csr])
  }

  lemma PutCsrKeeps(s: State, id: nat, csr: Csr)
    requires Inv(s) && (id == s.nextCsr + 1 || (id in s.csrs && CsrKept(s.csrs[id], csr)))
    requires csr.status == Issued <==> csr.cert.Some?
    requires csr.cert.Some? ==> csr.cert.value in s.certs && s.certs[csr.cert.value].agent == csr.agent
    requires csr.cert.Some? ==> forall j :: j in s.csrs && j != id ==> s.csrs[j].cert != csr.cert
    ensures Inv(PutCsr(s, id, csr)) && Keeps(s, PutCsr(s, id, csr))
  {
    hide CertOk, CsrOk, NumberedFrom1;
    var t := PutCsr(s, id, csr);
    NumbersStay(s.csrs, s.nextCsr, id, csr);
    forall j | j in t.certs ensures CertOk(t, j) { PutKeepsCert(s, id, csr, j); }
    forall j | j in t.csrs ensures CsrOk(t, j) { PutKeepsCsr(s, id, csr, j); }
  }

  lemma NumbersStay<T>(m: map<nat, T>, last: nat, id: nat, x: T)
    requires NumberedFrom1(m, last) && (id == last + 1 || id in m)
    ensures NumberedFrom1(m[id := x], if id == last + 1 then id else last)
    ensures id == last + 1 ==> id !in m
  {}

  lemma PutKeepsCert(s: State, id: nat, csr: Csr, j: nat)
    requires j in s.certs && CertOk(s, j)
    ensures CertOk(PutCsr(s, id, csr), j)
  {}

  lemma PutKeepsCsr(s: State, id: nat, csr: Csr, j: nat)
    requires csr.status == Issued <==> csr.cert.Some?
    requires csr.cert.Some? ==> csr.cert.value in s.certs && s.certs[csr.cert.value].agent == csr.agent
    requires j != id ==> j in s.csrs && CsrOk(s, j)
    ensures CsrOk(PutCsr(s, id, csr), j)
  {}

  /** A certificate just issued is not yet named by any request. */
  lemma FreshCert(s: State, agent: string, now: int, j: nat)
    requires Inv(s) && j in s.csrs
    ensures Issue(s, agent, now).csrs[j].cert != Some(s.nextCert + 1)
  {
    assert CsrOk(s, j);
  }

  lemma IssueFor(s: State, id: nat, csr: Csr, now: int)
    requires Inv(s) && (id == s.nextCsr + 1 || (id in s.csrs && CsrKept(s.csrs[id], csr)))
    requires csr.status == Issued && csr.cert == Some(s.nextCert + 1)
    ensures var t := PutCsr(Issue(s, csr.agent, now), id, csr); Inv(t) && Keeps(s, t)
  {
    hide Inv;
    hide Keeps;
    var u := Issue(s, csr.agent, now);
    IssueKeeps(s, csr.agent, now);
    forall j | j in u.csrs && j != id ensures u.csrs[j].cert != csr.cert { FreshCert(s, csr.agent, now, j); }
    PutCsrKeeps(u, id, csr);
    KeepsTrans(s, u, PutCsr(u, id, csr));
  }

  lemma SubmitKeeps(s: State, agent: string, attributes: map<string, string>, now: int)
    requires Inv(s)
    ensures Inv(Submit(s, agent, attributes, now)) && Keeps(s, Submit(s, agent, attributes, now))
  {
    hide TrimSpace;
    hide Matches;
    hide Inv;
    hide Keeps;
    hide CsrKept;
    if Blank(agent) {
      KeepsSelf(s);
    } else {
      var csr := Csr(TrimSpace(agent), attributes, Pending, "", None, now, now);
      if s.policy.autoApprove && Matches(attributes, s.policy.required) {
        IssueFor(s, s.nextCsr + 1, csr.(status := Issued, cert := Some(s.nextCert + 1)), now);
      } else {
        PutCsrKeeps(s, s.nextCsr + 1, csr);
      }
    }
  }

  lemma DecideKeeps(s: State, id: nat, decision: string, reason: string, now: int)
    requires Inv(s)
    ensures Inv(Decide(s, id, decision, reason, now)) && Keeps(s, Decide(s, id, decision, reason, now))
  {
    hide TrimSpace;
    hide Norm;
    hide Inv;
    hide Keeps;
    if DecideError(s, id, decision).Some? {
      KeepsSelf(s);
    } else {
      PendingHasNoCert(s, id);
      var csr := s.csrs[id];
      if Norm(decision) == "approve" {
        IssueFor(s, id, csr.(status := Issued, cert := Some(s.nextCert + 1), updatedAt := now), now);
      } else {
        PutCsrKeeps(s, id, csr.(status := Rejected, reason := TrimSpace(reason), updatedAt := now));
      }
    }
  }

  lemma PendingHasNoCert(s: State, id: nat)
    requires Inv(s) && id in s.csrs && s.csrs[id].status == Pending
    ensures s.csrs[id].cert == None && id <= s.nextCsr
  {
    assert CsrOk(s, id);
  }

  lemma RevokeKeeps(s: State, id: nat, now: int)
    requires Inv(s)
    ensures Inv(Revoke(s, id, now)) && Keeps(s, Revoke(s, id, now))
  {
    hide CertOk;
    hide CsrOk;
    var t := Revoke(s, id, now);
    forall j | j in t.certs ensures CertOk(t, j) { RevokeKeepsCert(s, id, now, j); }
    forall j | j in t.csrs ensures CsrOk(t, j) { RevokeKeepsCsr(s, id, now, j); }
  }

  lemma RevokeKeepsCert(s: State, id: nat, now: int, j: nat)
    requires j in s.certs && CertOk(s, j)
    ensures CertOk(Revoke(s, id, now), j)
  {}

  lemma RevokeKeepsCsr(s: State, id: nat, now: int, j: nat)
    requires j in s.csrs && CsrOk(s, j)
    ensures CsrOk(Revoke(s, id, now), j)
  {
  }

  lemma KeepsTrans(s: State, t: State, u: State)
    requires Keeps(s, t) && Keeps(t, u)
    ensures Keeps(s, u)
  {}

  lemma {:induction false} RenewKeeps(s: State, threshold: int, now: int, vs: seq<Visit>)
    requires Inv(s) && LegalVisits(s, threshold, now, vs)
    ensures Inv(RenewRun(s, threshold, now, vs)) && Keeps(s, RenewRun(s, threshold, now, vs))
  {
    hide Inv;
    if vs != [] {
      var front, v := vs[..|vs| - 1], vs[|vs| - 1];
      RenewKeeps(s, threshold, now, front);
      var t := RenewRun(s, threshold, now, front);
      if Qualifies(t.certs[v.id], threshold) {
        ReplaceKeeps(t, v.id, v.at);
        KeepsTrans(s, t, Replace(t, v.id, v.at));
      }
    }
  }

  // ------------------------------------------------------------------- runs

  datatype Op =
    | SetPolicy(policy: Policy)
    | SubmitCsr(agent: string, attributes: map<string, string>, now: int)
    | DecideCsr(id: nat, decision: string, reason: string, now: int)
    | RevokeCert(id: nat, now: int)
    | RotateAgent(agent: string, latest: Option<nat>, now: int)
    | RenewExpiring(hours: int, now: int, visits: seq<Visit>)

  /** Constrains only the choices that map iteration makes. */
  ghost predicate Possible(s: State, op: Op) {
    match op
    case RotateAgent(agent, latest, _) => LatestActive(s, TrimSpace(agent), latest)
    case RenewExpiring(hours, now, vs) => LegalVisits(s, Threshold(hours, now), now, vs) && Complete(s, vs)
    case _ => true
  }

  ghost function Step(s: State, op: Op): State
    requires Possible(s, op)
  {
    match op
    case SetPolicy(p) => s.(policy := p)
    case SubmitCsr(agent, attributes, now) => Submit(s, agent, attributes, now)
    case DecideCsr(id, decision, reason, now) => Decide(s, id, decision, reason, now)
    case RevokeCert(id, now) => Revoke(s, id, now)
    case RotateAgent(agent, latest, now) => Rotate(s, agent, latest, now)
    case RenewExpiring(hours, now, vs) => RenewRun(s, Threshold(hours, now), now, vs)
  }

  lemma StepKeeps(s: State, op: Op)
    requires Inv(s) && Possible(s, op)
    ensures Inv(Step(s, op)) && Keeps(s, Step(s, op))
  {
    hide Keeps;
    hide TrimSpace;
    match op {
      case SetPolicy(p) => SetPolicyKeeps(s, p);
      case SubmitCsr(agent, attributes, now) => SubmitKeeps(s, agent, attributes, now);
      case DecideCsr(id, decision, reason, now) => DecideKeeps(s, id, decision, reason, now);
      case RevokeCert(id, now) => RevokeKeeps(s, id, now);
      case RotateAgent(agent, latest, now) =>
        if Blank(agent) { SetPolicyKeeps(s, s.policy); }
        else if latest.Some? { ReplaceKeeps(s, latest.value, now); }
        else { IssueKeeps(s, TrimSpace(agent), now); }
      case RenewExpiring(hours, now, vs) => RenewKeeps(s, Threshold(hours, now), now, vs);
    }
  }

  lemma SetPolicyKeeps(s: State, p: Policy)
    requires Inv(s)
    ensures Inv(s.(policy := p)) && Keeps(s, s.(policy := p))
  {
    var t := s.(policy := p);
    forall j | j in t.certs ensures CertOk(t, j) { assert CertOk(s, j); }
    forall j | j in t.csrs ensures CsrOk(t, j) { assert CsrOk(s, j); }
  }

  /** The states of a run, from the empty store through each operation. */
  ghost predicate IsRun(states: seq<State>, ops: seq<Op>) {
    && |states| == |ops| + 1 && states[0] == Initial(states[0].policy.updatedAt)
    && forall i :: 0 <= i < |ops| ==> Possible(states[i], ops[i]) && states[i + 1] == Step(states[i], ops[i])
  }

  /** In every state of every run the invariant holds, and nothing later undoes a link or an issued request. */
  lemma {:induction false} RunsKeep(states: seq<State>, ops: seq<Op>, i: nat, j: nat)
    requires IsRun(states, ops) && i <= j < |states|
    ensures Inv(states[j]) && Keeps(states[i], states[j])
  {
    hide Inv;
    hide Keeps;
    hide Possible;
    hide Step;
    if j == 0 {
      InitialOk(states[0].policy.updatedAt);
    } else if i == j {
      RunsKeep(states, ops, j - 1, j - 1);
      StepKeeps(states[j - 1], ops[j - 1]);
      KeepsSelf(states[j]);
    } else {
      RunsKeep(states, ops, i, j - 1);
      StepKeeps(states[j - 1], ops[j - 1]);
      KeepsTrans(states[i], states[j - 1], states[j]);
    }
  }

  lemma InitialOk(now: int)
    ensures Inv(Initial(now)) && Keeps(Initial(now), Initial(now))
  {}

  lemma KeepsSelf(s: State)
    ensures Keeps(s, s)
  {}

  /** Following rotation links from any certificate ends, at a later certificate of the same agent. */
  ghost function Tip(s: State, id: nat): (tip: nat)
    requires Inv(s) && id in s.certs
    ensures id <= tip && tip in s.certs && s.certs[tip].agent == s.certs[id].agent && s.certs[tip].rotatedBy == None
    decreases s.nextCert - id
  {
    assert CertOk(s, id);
    match s.certs[id].rotatedBy
    case None => id
    case Some(next) => Tip(s, next)
  }

  // ------------------------------------------- where certificates come from

  /** The requests that were granted. */
  ghost function Granted(s: State): set<nat> {
    set id | id in s.csrs && s.csrs[id].status == Issued
  }

  /** The certificates that have a successor. */
  ghost function Succeeded(s: State): set<nat> {
    set id | id in s.certs && s.certs[id].rotatedBy.Some?
  }

  /** No certificate is the successor of two others, or of another one and also named by a request. */
  ghost predicate OneOrigin(s: State) {
    && (forall i, j :: i in Succeeded(s) && j in Succeeded(s) && i != j ==> s.certs[i].rotatedBy != s.certs[j].rotatedBy)
    && (forall i, r :: i in Succeeded(s) && r in Granted(s) ==> s.certs[i].rotatedBy != s.csrs[r].cert)
  }

  lemma IssueOrigin(s: State, agent: string, now: int)
    requires Inv(s) && OneOrigin(s)
    ensures var t := Issue(s, agent, now);
      Succeeded(t) == Succeeded(s) && Granted(t) == Granted(s) && OneOrigin(t) && t.nextCert == s.nextCert + 1
  {
    hide CsrOk;
    var t := Issue(s, agent, now);
    assert t.nextCert !in s.certs;
    assert forall id :: id in s.certs ==> t.certs[id] == s.certs[id];
  }

  lemma ReplaceOrigin(s: State, id: nat, now: int)
    requires Inv(s) && OneOrigin(s) && id in s.certs && s.certs[id].status == Active
    ensures var t := Replace(s, id, now);
      && id !in Succeeded(s) && Succeeded(t) == Succeeded(s) + {id} && Granted(t) == Granted(s)
      && OneOrigin(t) && t.nextCert == s.nextCert + 1
  {
    hide Inv, Granted, Succeeded;
    NextIsFresh(s);
    ActiveHasNoSuccessor(s, id);
    ReplaceSets(s, id, now);
  }

  lemma ActiveHasNoSuccessor(s: State, id: nat)
    requires Inv(s) && id in s.certs && s.certs[id].status == Active
    ensures s.certs[id].rotatedBy == None
  {
    assert CertOk(s, id);
  }

  lemma NextIsFresh(s: State)
    requires Inv(s)
    ensures s.nextCert + 1 !in s.certs
    ensures forall j :: j in Succeeded(s) ==> s.certs[j].rotatedBy != Some(s.nextCert + 1)
    ensures forall r :: r in Granted(s) ==> s.csrs[r].cert != Some(s.nextCert + 1)
  {
    forall j | j in Succeeded(s) ensures s.certs[j].rotatedBy != Some(s.nextCert + 1) { assert CertOk(s, j); }
    forall r | r in Granted(s) ensures s.csrs[r].cert != Some(s.nextCert + 1) { assert CsrOk(s, r); }
  }

  lemma ReplaceSets(s: State, id: nat, now: int)
    requires id in s.certs && s.certs[id].rotatedBy == None && s.nextCert + 1 !in s.certs
    ensures var t := Replace(s, id, now);
      && id !in Succeeded(s) && Succeeded(t) == Succeeded(s) + {id} && Granted(t) == Granted(s) && t.csrs == s.csrs
      && t.certs[id].rotatedBy == Some(s.nextCert + 1)
      && forall j :: j in Succeeded(s) ==> t.certs[j] == s.certs[j]
  {}

  /** Granting a request: a new certificate, named by this request alone. */
  lemma GrantOrigin(s: State, id: nat, csr: Csr, now: int)
    requires Inv(s) && OneOrigin(s) && csr.status == Issued && csr.cert == Some(s.nextCert + 1)
    requires id in s.csrs ==> s.csrs[id].status == Pending
    ensures var t := PutCsr(Issue(s, csr.agent, now), id, csr);
      && id !in Granted(s) && Granted(t) == Granted(s) + {id} && Succeeded(t) == Succeeded(s)
      && OneOrigin(t) && t.nextCert == s.nextCert + 1
  {
    hide Inv;
    NextIsFresh(s);
    GrantSets(s, id, csr, now);
    hide Granted, Succeeded;
  }

  lemma GrantSets(s: State, id: nat, csr: Csr, now: int)
    requires csr.status == Issued && s.nextCert + 1 !in s.certs && (id in s.csrs ==> s.csrs[id].status == Pending)
    ensures var t := PutCsr(Issue(s, csr.agent, now), id, csr);
      && id !in Granted(s) && Granted(t) == Granted(s) + {id} && Succeeded(t) == Succeeded(s)
      && (forall r :: r in Granted(s) ==> t.csrs[r] == s.csrs[r])
      && (forall j :: j in Succeeded(s) ==> t.certs[j] == s.certs[j])
      && t.csrs[id] == csr && t.nextCert == s.nextCert + 1
  {}

  /** The certificates a step issues without a request and without a predecessor. */
  function Unprompted(op: Op): nat {
    if op.RotateAgent? && !Blank(op.agent) && op.latest.None? then 1 else 0
  }

  /** A step issues one certificate per request it grants, per successor it sets, and per rotation of nothing. */
  ghost predicate Conserves(s: State, t: State, unprompted: nat) {
    && OneOrigin(t)
    && t.nextCert - s.nextCert == |Granted(t)| - |Granted(s)| + |Succeeded(t)| - |Succeeded(s)| + unprompted
  }

  lemma SubmitConserves(s: State, agent: string, attributes: map<string, string>, now: int)
    requires Inv(s) && OneOrigin(s)
    ensures Conserves(s, Submit(s, agent, attributes, now), 0)
  {
    hide Matches, TrimSpace, OneOrigin, Granted, Succeeded, CertOk, CsrOk;
    var t, id := Submit(s, agent, attributes, now), s.nextCsr + 1;
    assert id !in s.csrs;
    var csr := Csr(TrimSpace(agent), attributes, Pending, "", None, now, now);
    if s.policy.autoApprove && Matches(attributes, s.policy.required) {
      GrantOrigin(s, id, csr.(status := Issued, cert := Some(s.nextCert + 1)), now);
    } else {
      PendingOrigin(s, id, csr);
    }
  }

  lemma PendingOrigin(s: State, id: nat, csr: Csr)
    requires OneOrigin(s) && id !in s.csrs && csr.status == Pending
    ensures var t := PutCsr(s, id, csr); OneOrigin(t) && Granted(t) == Granted(s) && Succeeded(t) == Succeeded(s)
  {
    hide OneOrigin;
    var t := PutCsr(s, id, csr);
    assert Granted(t) == Granted(s) && Succeeded(t) == Succeeded(s);
    SameOrigins(s, t);
  }

  lemma SameOrigins(s: State, t: State)
    requires OneOrigin(s) && Granted(t) == Granted(s) && Succeeded(t) == Succeeded(s)
    requires forall id :: id in Succeeded(s) ==> t.certs[id].rotatedBy == s.certs[id].rotatedBy
    requires forall id :: id in Granted(s) ==> t.csrs[id].cert == s.csrs[id].cert
    ensures OneOrigin(t)
  {}

  lemma DecideConserves(s: State, id: nat, decision: string, reason: string, now: int)
    requires Inv(s) && OneOrigin(s)
    ensures Conserves(s, Decide(s, id, decision, reason, now), 0)
  {
    hide Norm, TrimSpace, OneOrigin;
    var t := Decide(s, id, decision, reason, now);
    if t.nextCert != s.nextCert {
      var csr := s.csrs[id].(status := Issued, cert := Some(s.nextCert + 1), updatedAt := now);
      GrantOrigin(s, id, csr, now);
      assert id != s.nextCsr + 1;
      assert t == PutCsr(Issue(s, csr.agent, now), id, csr);
    } else {
      assert Granted(t) == Granted(s) && Succeeded(t) == Succeeded(s);
      SameOrigins(s, t);
    }
  }

  lemma RevokeConserves(s: State, id: nat, now: int)
    requires Inv(s) && OneOrigin(s)
    ensures Conserves(s, Revoke(s, id, now), 0)
  {
    hide OneOrigin, CsrOk;
    var t := Revoke(s, id, now);
    assert Granted(t) == Granted(s) && Succeeded(t) == Succeeded(s);
    SameOrigins(s, t);
  }

  lemma RotateConserves(s: State, agent: string, latest: Option<nat>, now: int)
    requires Inv(s) && OneOrigin(s) && LatestActive(s, TrimSpace(agent), latest)
    ensures latest.Some? ==> latest.value in s.certs
    ensures Conserves(s, Rotate(s, agent, latest, now), Unprompted(RotateAgent(agent, latest, now)))
  {
    hide Inv, OneOrigin, TrimSpace;
    if !Blank(agent) {
      match latest
      case None => IssueOrigin(s, TrimSpace(agent), now);
      case Some(l) => ReplaceOrigin(s, l, now);
    }
  }

  lemma {:induction false} RenewConserves(s: State, threshold: int, now: int, vs: seq<Visit>)
    requires Inv(s) && OneOrigin(s) && LegalVisits(s, threshold, now, vs)
    ensures Conserves(s, RenewRun(s, threshold, now, vs), 0)
  {
    hide Inv, OneOrigin;
    if vs != [] {
      var front, v := vs[..|vs| - 1], vs[|vs| - 1];
      RenewConserves(s, threshold, now, front);
      RenewKeeps(s, threshold, now, front);
      var t := RenewRun(s, threshold, now, front);
      if Qualifies(t.certs[v.id], threshold) { ReplaceOrigin(t, v.id, v.at); }
    }
  }

  lemma StepConserves(s: State, op: Op)
    requires Inv(s) && OneOrigin(s) && Possible(s, op)
    ensures Conserves(s, Step(s, op), Unprompted(op))
  {
    hide Inv, OneOrigin, Blank;
    match op {
      case SetPolicy(p) => SameOrigins(s, s.(policy := p));
      case SubmitCsr(agent, attributes, now) => SubmitConserves(s, agent, attributes, now);
      case DecideCsr(id, decision, reason, now) => DecideConserves(s, id, decision, reason, now);
      case RevokeCert(id, now) => RevokeConserves(s, id, now);
      case RotateAgent(agent, latest, now) => RotateConserves(s, agent, latest, now);
      case RenewExpiring(hours, now, vs) => RenewConserves(s, Threshold(hours, now), now, vs);
    }
  }

  function UnpromptedIn(ops: seq<Op>): nat {
    if ops == [] then 0 else UnpromptedIn(ops[..|ops| - 1]) + Unprompted(ops[|ops| - 1])
  }

  /**
   In every run each certificate has at most one origin, and the certificates issued number exactly the requests
   granted, the successors set and the rotations that had nothing to rotate.
   */
  lemma {:induction false} CertificatesAccountedFor(states: seq<State>, ops: seq<Op>, n: nat)
    requires IsRun(states, ops) && n <= |ops|
    ensures OneOrigin(states[n])
    ensures states[n].nextCert == |Granted(states[n])| + |Succeeded(states[n])| + UnpromptedIn(ops[..n])
  {
    hide Inv, OneOrigin, Possible, Step, Unprompted, Granted, Succeeded;
    if n == 0 {
      NothingYet(states[0].policy.updatedAt);
    } else {
      CertificatesAccountedFor(states, ops, n - 1);
      RunsKeep(states, ops, n - 1, n - 1);
      StepConserves(states[n - 1], ops[n - 1]);
      assert ops[..n][..n - 1] == ops[..n - 1];
    }
  }

  lemma NothingYet(now: int)
    ensures var s := Initial(now); OneOrigin(s) && Granted(s) == {} && Succeeded(s) == {}
  {}

  // ------------------------------------------------- who gets a certificate

  /** Every required attribute comes with its value; one that is missing counts as empty. */
  ghost predicate HasRequired(attributes: map<string, string>, required: map<string, string>) {
    forall k :: k in required ==>
      (k in attributes && TrimSpace(attributes[k]) == required[k]) || (k !in attributes && required[k] == "")
  }

  /**
   Submitting issues a certificate, to the submitting agent and for 90 days from now, exactly when the policy approves
   by itself and every required attribute comes with its value; otherwise the request waits.
   */
  lemma SubmitOutcome(s: State, agent: string, attributes: map<string, string>, now: int)
    requires Inv(s) && !Blank(agent)
    ensures var t, id := Submit(s, agent, attributes, now), s.nextCsr + 1;
      var granted := s.policy.autoApprove && HasRequired(attributes, s.policy.required);
      && id !in s.csrs && t.csrs.Keys == s.csrs.Keys + {id}
      && t.csrs[id] == Csr(TrimSpace(agent), attributes, if granted then Issued else Pending, "",
                           if granted then Some(s.nextCert + 1) else None, now, now)
      && t.certs == if granted then s.certs[s.nextCert + 1 := Cert(TrimSpace(agent), Active, now, now + 7_776_000, None, None)]
                    else s.certs
  {
    hide TrimSpace, Blank, Inv;
    Numbered(s);
    NewNumbers(s);
  }

  lemma NewNumbers(s: State)
    requires Inv(s)
    ensures s.nextCsr + 1 !in s.csrs && s.nextCert + 1 !in s.certs
  {}

  /**
   A decision is taken exactly on a pending request and if it is to approve or to reject; approving issues one
   certificate to the request's agent, rejecting notes the reason and issues nothing.
   */
  lemma DecideOutcome(s: State, id: nat, decision: string, reason: string, now: int)
    requires Inv(s)
    ensures var t, d := Decide(s, id, decision, reason, now), Norm(decision);
      && (DecideError(s, id, decision) == None <==>
            id in s.csrs && s.csrs[id].status == Pending && (d == "approve" || d == "reject"))
      && (DecideError(s, id, decision).Some? ==> t == s)
      && (DecideError(s, id, decision) == None ==>
            && t.csrs.Keys == s.csrs.Keys && (forall j :: j in s.csrs && j != id ==> t.csrs[j] == s.csrs[j])
            && t.csrs[id].agent == s.csrs[id].agent && t.csrs[id].updatedAt == now
            && (d == "approve" ==>
                 && t.csrs[id].status == Issued && t.csrs[id].cert == Some(s.nextCert + 1)
                 && t.certs == s.certs[s.nextCert + 1 := Cert(s.csrs[id].agent, Active, now, now + 7_776_000, None, None)])
            && (d == "reject" ==>
                 && t.csrs[id].status == Rejected && t.csrs[id].cert == None && t.csrs[id].reason == TrimSpace(reason)
                 && t.certs == s.certs))
  {
    hide Norm, TrimSpace, Inv;
    if id in s.csrs && s.csrs[id].status == Pending { PendingHasNoCert(s, id); }
  }

  /** A revoked certificate is revoked as of its first revocation and stays so in the rest of the run. */
  lemma RevocationIsFinal(states: seq<State>, ops: seq<Op>, i: nat, j: nat)
    requires IsRun(states, ops) && i < |ops| && i < j < |states|
    requires ops[i].RevokeCert? && ops[i].id in states[i].certs
    ensures var id, before := ops[i].id, states[i].certs[ops[i].id];
      && id in states[j].certs && states[j].certs[id].status == Revoked
      && states[j].certs[id].revokedAt == (if before.status == Revoked then before.revokedAt else Some(ops[i].now))
    ensures states[i + 1] == states[i].(certs := states[i + 1].certs)
    ensures forall c :: c in states[i].certs && c != ops[i].id ==> c in states[i + 1].certs && states[i + 1].certs[c] == states[i].certs[c]
  {
    hide Inv;
    RunsKeep(states, ops, i + 1, j);
    assert states[i + 1] == Revoke(states[i], ops[i].id, ops[i].now);
    assert CertKept(states[i + 1].certs[ops[i].id], states[j].certs[ops[i].id]);
  }

  /** Rotation retires the agent's latest active certificate, if any, and leaves exactly one new one in its place. */
  lemma RotateOutcome(s: State, agent: string, latest: Option<nat>, now: int)
    requires Inv(s) && !Blank(agent) && LatestActive(s, TrimSpace(agent), latest)
    ensures var t, a := Rotate(s, agent, latest, now), TrimSpace(agent);
      && t.nextCert == s.nextCert + 1
      && ActiveOf(t, a) == (if latest.Some? then ActiveOf(s, a) - {latest.value} else {}) + {t.nextCert}
      && t.certs[t.nextCert] == Cert(a, Active, now, now + 7_776_000, None, None)
      && (forall id :: id in s.certs && Some(id) != latest ==> t.certs[id] == s.certs[id])
      && (latest.None? <==> ActiveOf(s, a) == {})
      && (latest.Some? ==>
            && latest.value in ActiveOf(s, a)
            && (forall id :: id in ActiveOf(s, a) ==> s.certs[id].issuedAt <= s.certs[latest.value].issuedAt)
            && t.certs[latest.value] == s.certs[latest.value].(status := Rotated, rotatedBy := Some(t.nextCert)))
  {
    hide TrimSpace;
    var t, a, n := Rotate(s, agent, latest, now), TrimSpace(agent), s.nextCert + 1;
    assert n !in s.certs && t.certs[n] == NewCert(a, now);
    forall id | id != n ensures id in ActiveOf(t, a) <==> id in ActiveOf(s, a) && Some(id) != latest {
      assert id in t.certs <==> id in s.certs;
    }
  }

  // ------------------------------------------------------- renewal, exactly

  ghost predicate Renewed(c: Cert, d: Cert, s: State, t: State) {
    && d.rotatedBy.Some? && d == c.(status := Rotated, rotatedBy := d.rotatedBy)
    && s.nextCert < d.rotatedBy.value <= t.nextCert && d.rotatedBy.value in t.certs
    && t.certs[d.rotatedBy.value].agent == c.agent
  }

  /** The certificates to renew among those visited so far. */
  ghost function Due(s: State, threshold: int, vs: seq<Visit>): set<nat> {
    set id | id in s.certs && Qualifies(s.certs[id], threshold) && Visited(vs, id)
  }

  ghost function ActiveOf(s: State, agent: string): set<nat> {
    set id | id in s.certs && ActiveFor(s, agent, id)
  }

  /** The certificates in `due` are replaced by distinct new ones, all others are as before. */
  ghost predicate Replaced(s: State, t: State, due: set<nat>) {
    && (forall id :: id in s.certs ==> id in t.certs)
    && (forall id :: id in due ==> id in s.certs && Renewed(s.certs[id], t.certs[id], s, t))
    && (forall id :: id in s.certs && id !in due ==> t.certs[id] == s.certs[id])
    && t.nextCert == s.nextCert + |due|
    && t.csrs == s.csrs
  }

  ghost predicate DistinctSuccessors(t: State, due: set<nat>) {
    && due <= t.certs.Keys
    && forall i, j :: i in due && j in due && i != j ==> t.certs[i].rotatedBy != t.certs[j].rotatedBy
  }

  ghost predicate FreshLast(s: State, t: State, threshold: int) {
    forall id :: id in t.certs && id !in s.certs ==> t.certs[id].status == Active && t.certs[id].expiresAt > threshold
  }

  ghost predicate SameActive(s: State, t: State) {
    forall agent :: |ActiveOf(t, agent)| == |ActiveOf(s, agent)|
  }

  /** Where the loop stands after some visits. */
  ghost predicate Progress(s: State, t: State, threshold: int, vs: seq<Visit>) {
    var due := Due(s, threshold, vs);
    Replaced(s, t, due) && DistinctSuccessors(t, due) && FreshLast(s, t, threshold) && SameActive(s, t)
  }

  lemma DueStep(s: State, threshold: int, front: seq<Visit>, v: Visit)
    requires forall w :: w in front ==> w.id != v.id
    ensures Due(s, threshold, front + [v]) ==
      if v.id in s.certs && Qualifies(s.certs[v.id], threshold) then Due(s, threshold, front) + {v.id}
      else Due(s, threshold, front)
    ensures v.id !in Due(s, threshold, front)
  {
    var vs := front + [v];
    forall id ensures Visited(vs, id) <==> Visited(front, id) || id == v.id {
      if Visited(front, id) { var w :| w in front && w.id == id; assert w in vs; }
      if id == v.id { assert v in vs; }
    }
  }

  lemma ReplacedActive(t: State, id: nat, at: int, agent: string)
    requires id in t.certs && t.certs[id].status == Active && t.nextCert + 1 !in t.certs
    ensures ActiveOf(Replace(t, id, at), agent) ==
      if agent == t.certs[id].agent then ActiveOf(t, agent) - {id} + {t.nextCert + 1} else ActiveOf(t, agent)
    ensures t.nextCert + 1 !in ActiveOf(t, agent) && (id in ActiveOf(t, agent) <==> agent == t.certs[id].agent)
  {}

  lemma ReplaceKeepsCounts(t: State, id: nat, at: int, agent: string)
    requires NumberedFrom1(t.certs, t.nextCert) && id in t.certs && t.certs[id].status == Active
    ensures |ActiveOf(Replace(t, id, at), agent)| == |ActiveOf(t, agent)|
  {
    var u, n := Replace(t, id, at), t.nextCert + 1;
    assert n !in t.certs;
    ReplacedActive(t, id, at, agent);
    hide ActiveOf;
  }

  lemma {:induction false} RenewProgress(s: State, hours: int, now: int, vs: seq<Visit>)
    requires Inv(s) && Within(hours) < 2160 && LegalVisits(s, Threshold(hours, now), now, vs)
    ensures Progress(s, RenewRun(s, Threshold(hours, now), now, vs), Threshold(hours, now), vs)
  {
    hide Inv;
    hide Progress;
    var threshold := Threshold(hours, now);
    if vs == [] {
      ProgressStart(s, threshold);
    } else {
      var front, v := vs[..|vs| - 1], vs[|vs| - 1];
      RenewProgress(s, hours, now, front);
      RenewKeeps(s, threshold, now, front);
      assert vs == front + [v];
      ProgressStep(s, RenewRun(s, threshold, now, front), hours, now, front, v);
    }
  }

  lemma ProgressStart(s: State, threshold: int)
    ensures Progress(s, s, threshold, [])
  {
    assert Due(s, threshold, []) == {};
  }

  lemma ProgressStep(s: State, t: State, hours: int, now: int, front: seq<Visit>, v: Visit)
    requires Inv(s) && Inv(t) && Within(hours) < 2160 && Progress(s, t, Threshold(hours, now), front)
    requires v.id in t.certs && v.at >= now && forall w :: w in front ==> w.id != v.id
    ensures Progress(s, RenewVisit(t, Threshold(hours, now), v), Threshold(hours, now), front + [v])
  {
    hide Inv;
    hide Replaced;
    hide FreshLast;
    hide SameActive;
    hide DistinctSuccessors;
    var threshold := Threshold(hours, now);
    var due := Due(s, threshold, front);
    Numbered(s);
    Numbered(t);
    DueStep(s, threshold, front, v);
    VisitFacts(s, t, threshold, due, v.id);
    if Qualifies(t.certs[v.id], threshold) {
      ReplacedStep(s, t, threshold, due, v.id, v.at);
      SuccessorStep(s, t, threshold, due, v.id, v.at);
      FreshStep(s, t, threshold, v.id, v.at);
      ActiveStep(s, t, v.id, v.at);
    }
  }

  /** Only certificates that were there before and are still due qualify when visited. */
  lemma VisitFacts(s: State, t: State, threshold: int, due: set<nat>, id: nat)
    requires Inv(s) && Replaced(s, t, due) && FreshLast(s, t, threshold) && id in t.certs && id !in due
    ensures id in s.certs ==> t.certs[id] == s.certs[id]
    ensures id !in s.certs ==> !Qualifies(t.certs[id], threshold)
  {}

  lemma ReplacedStep(s: State, t: State, threshold: int, due: set<nat>, id: nat, at: int)
    requires NumberedFrom1(s.certs, s.nextCert) && NumberedFrom1(t.certs, t.nextCert) && Replaced(s, t, due)
    requires id in s.certs && id in t.certs && id !in due && Qualifies(s.certs[id], threshold) && t.certs[id] == s.certs[id]
    ensures Replaced(s, Replace(t, id, at), due + {id})
  {
    hide Renewed;
    hide Qualifies;
    var u, n := Replace(t, id, at), t.nextCert + 1;
    assert n !in t.certs && n !in s.certs;
    RenewedNow(s, t, id, at);
    forall j | j in due ensures Renewed(s.certs[j], u.certs[j], s, u) {
      RenewedStays(s.certs[j], j, s, t, id, at);
    }
    assert |due + {id}| == |due| + 1;
  }

  lemma RenewedNow(s: State, t: State, id: nat, at: int)
    requires id in t.certs && t.nextCert >= s.nextCert
    ensures Renewed(t.certs[id], Replace(t, id, at).certs[id], s, Replace(t, id, at)) || id == t.nextCert + 1
  {}

  lemma RenewedStays(c: Cert, j: nat, s: State, t: State, id: nat, at: int)
    requires j in t.certs && id in t.certs && j != id && t.nextCert + 1 !in t.certs
    requires Renewed(c, t.certs[j], s, t)
    ensures var u := Replace(t, id, at); j in u.certs && Renewed(c, u.certs[j], s, u)
  {}

  lemma SuccessorStep(s: State, t: State, threshold: int, due: set<nat>, id: nat, at: int)
    requires NumberedFrom1(t.certs, t.nextCert) && Replaced(s, t, due) && DistinctSuccessors(t, due)
    requires id in t.certs && id !in due
    ensures DistinctSuccessors(Replace(t, id, at), due + {id})
  {
    hide Replaced, Renewed;
    var u, n := Replace(t, id, at), t.nextCert + 1;
    assert n !in t.certs;
    SuccessorsKnown(s, t, due);
    assert forall j :: j in due ==> u.certs[j] == t.certs[j] && u.certs[j].rotatedBy != Some(n);
  }

  lemma SuccessorsKnown(s: State, t: State, due: set<nat>)
    requires NumberedFrom1(t.certs, t.nextCert) && Replaced(s, t, due)
    ensures forall j :: j in due ==> j in t.certs && t.certs[j].rotatedBy != Some(t.nextCert + 1)
  {
    forall j | j in due ensures j in t.certs && t.certs[j].rotatedBy != Some(t.nextCert + 1) {
      assert Renewed(s.certs[j], t.certs[j], s, t);
    }
  }

  lemma FreshStep(s: State, t: State, threshold: int, id: nat, at: int)
    requires Inv(t) && FreshLast(s, t, threshold) && id in s.certs && id in t.certs && at + LIFETIME > threshold
    ensures FreshLast(s, Replace(t, id, at), threshold)
  {}

  lemma ActiveStep(s: State, t: State, id: nat, at: int)
    requires Inv(t) && SameActive(s, t) && id in t.certs && t.certs[id].status == Active
    ensures SameActive(s, Replace(t, id, at))
  {
    hide Replace;
    forall agent ensures |ActiveOf(Replace(t, id, at), agent)| == |ActiveOf(s, agent)| {
      ReplaceKeepsCounts(t, id, at, agent);
    }
  }

  /** The certificates a renewal is for: the active ones that expire by the threshold. */
  ghost function DueBy(s: State, threshold: int): set<nat> {
    set id | id in s.certs && s.certs[id].status == Active && s.certs[id].expiresAt <= threshold
  }

  lemma RenewCore(s: State, hours: int, now: int, vs: seq<Visit>)
    requires Inv(s) && Within(hours) < 2160
    requires LegalVisits(s, Threshold(hours, now), now, vs) && Complete(s, vs)
    ensures var threshold := Threshold(hours, now);
      var t := RenewRun(s, threshold, now, vs);
      var due := DueBy(s, threshold);
      && Replaced(s, t, due) && DistinctSuccessors(t, due) && FreshLast(s, t, threshold) && SameActive(s, t)
  {
    hide Inv, LegalVisits, RenewRun, Replaced, DistinctSuccessors, FreshLast, SameActive;
    var threshold := Threshold(hours, now);
    RenewProgress(s, hours, now, vs);
    assert Due(s, threshold, vs) == DueBy(s, threshold);
  }

  /**
   From `s` to `t` every certificate due by the threshold was replaced exactly once, nothing else changed, each agent
   kept its number of active certificates, and none is left that is due.
   */
  ghost predicate RenewedExactly(s: State, t: State, threshold: int) {
    var due := DueBy(s, threshold);
    && (forall id :: id in due ==> id in s.certs && id in t.certs && Renewed(s.certs[id], t.certs[id], s, t))
    && DistinctSuccessors(t, due)
    && (forall id :: id in s.certs && id !in due ==> id in t.certs && t.certs[id] == s.certs[id])
    && t.nextCert == s.nextCert + |due|
    && DueBy(t, threshold) == {}
    && (forall agent :: |ActiveOf(t, agent)| == |ActiveOf(s, agent)|)
    && t.csrs == s.csrs
  }

  /**
   Renewal with a horizon below the certificate lifetime, 72 hours by default, does exactly that, whatever order the
   map is visited in and whether or not new entries are visited.
   */
  lemma RenewExact(s: State, hours: int, now: int, vs: seq<Visit>)
    requires Inv(s) && hours < 2160
    requires LegalVisits(s, now + 3600 * (if hours <= 0 then 72 else hours), now, vs) && Complete(s, vs)
    ensures var threshold := now + 3600 * (if hours <= 0 then 72 else hours);
      RenewedExactly(s, RenewRun(s, threshold, now, vs), threshold)
  {
    hide Inv, LegalVisits, RenewRun, Renewed, ActiveOf, Complete;
    var threshold := Threshold(hours, now);
    RenewCore(s, hours, now, vs);
    var t, due := RenewRun(s, threshold, now, vs), DueBy(s, threshold);
    forall id | id in DueBy(t, threshold) ensures false { NotDueAgain(s, t, threshold, id); }
    assert DueBy(t, threshold) == {};
  }

  lemma NotDueAgain(s: State, t: State, threshold: int, id: nat)
    requires Replaced(s, t, DueBy(s, threshold)) && FreshLast(s, t, threshold) && id in t.certs
    ensures id !in DueBy(t, threshold)
  {
    if id in s.certs && id in DueBy(s, threshold) { assert Renewed(s.certs[id], t.certs[id], s, t); }
  }

  /** The numbers after `from` up to `to`, in order. */
  function NumbersAfter(from: nat, to: nat): (r: seq<nat>)
    requires from <= to
    ensures |r| == to - from && forall i :: 0 <= i < |r| ==> r[i] == from + 1 + i
  {
    seq(to - from, i => from + 1 + i)
  }

  lemma NumbersAfterAre(from: nat, to: nat, n: nat)
    requires from <= to
    ensures n in NumbersAfter(from, to) <==> from < n <= to
  {
    if from < n <= to { assert NumbersAfter(from, to)[n - from - 1] == n; }
  }

  /** The successors of the listed certificates. */
  ghost function Heirs(t: State, ids: set<nat>): set<nat> {
    set id | id in ids && id in t.certs && t.certs[id].rotatedBy.Some? :: t.certs[id].rotatedBy.value
  }

  /**
   The certificates that a renewal reports are new, active, and exactly the successors of the ones that were due:
   the numbers it adds.
   */
  lemma RenewReportsSuccessors(s: State, hours: int, now: int, vs: seq<Visit>)
    requires Inv(s) && hours < 2160
    requires LegalVisits(s, now + 3600 * (if hours <= 0 then 72 else hours), now, vs) && Complete(s, vs)
    ensures var threshold := now + 3600 * (if hours <= 0 then 72 else hours);
      var t := RenewRun(s, threshold, now, vs);
      && t.nextCert >= s.nextCert
      && (forall n :: n in NumbersAfter(s.nextCert, t.nextCert) ==>
            n !in s.certs && n in t.certs && t.certs[n].status == Active)
      && Elems(NumbersAfter(s.nextCert, t.nextCert)) == Heirs(t, DueBy(s, threshold))
  {
    hide Inv, LegalVisits, RenewRun, Renewed, Complete, DueBy;
    var threshold := Threshold(hours, now);
    var t := RenewRun(s, threshold, now, vs);
    RenewCore(s, hours, now, vs);
    RenewKeeps(s, threshold, now, vs);
    RenewedAreNew(s, t);
    HeirsAreNew(s, t, DueBy(s, threshold));
  }

  lemma HeirsAreNew(s: State, t: State, due: set<nat>)
    requires Replaced(s, t, due) && DistinctSuccessors(t, due)
    ensures s.nextCert <= t.nextCert && Elems(NumbersAfter(s.nextCert, t.nextCert)) == Heirs(t, due)
  {
    var added, heirs := Elems(NumbersAfter(s.nextCert, t.nextCert)), Heirs(t, due);
    forall id | id in due ensures id in t.certs && t.certs[id].rotatedBy.Some? && t.certs[id].rotatedBy.value in added {
      assert Renewed(s.certs[id], t.certs[id], s, t);
      NumbersAfterAre(s.nextCert, t.nextCert, t.certs[id].rotatedBy.value);
    }
    HeirCount(t, due);
    NumbersAfterSize(s.nextCert, t.nextCert);
    SameSizeSubset(heirs, added);
  }

  lemma {:induction false} NumbersAfterSize(from: nat, to: nat)
    requires from <= to
    ensures |Elems(NumbersAfter(from, to))| == to - from
  {
    if from < to {
      NumbersAfterSize(from, to - 1);
      var a, b := NumbersAfter(from, to - 1), NumbersAfter(from, to);
      assert b == a + [to];
      assert Elems(b) == Elems(a) + {to};
      assert to !in Elems(a);
    }
  }

  lemma {:induction false} HeirCount(t: State, ids: set<nat>)
    requires forall id :: id in ids ==> id in t.certs && t.certs[id].rotatedBy.Some?
    requires forall i, j :: i in ids && j in ids && i != j ==> t.certs[i].rotatedBy != t.certs[j].rotatedBy
    ensures |Heirs(t, ids)| == |ids|
  {
    if ids == {} {
      assert Heirs(t, ids) == {};
    } else {
      var i :| i in ids;
      var rest := ids - {i};
      HeirCount(t, rest);
      assert Heirs(t, ids) == Heirs(t, rest) + {t.certs[i].rotatedBy.value};
      assert t.certs[i].rotatedBy.value !in Heirs(t, rest);
    }
  }

  lemma SameSizeSubset<T>(a: set<T>, b: set<T>)
    requires a <= b && |a| == |b|
    ensures a == b
  {
    assert b == a + (b - a);
    assert |b| == |a| + |b - a|;
  }

  lemma {:induction false} VisitsDistinct(s: State, threshold: int, now: int, vs: seq<Visit>)
    requires Inv(s) && LegalVisits(s, threshold, now, vs)
    ensures var t := RenewRun(s, threshold, now, vs);
      forall v :: v in vs ==> 1 <= v.id <= t.nextCert
    ensures |set v | v in vs :: v.id| == |vs|
  {
    hide Inv;
    if vs != [] {
      var front, v := vs[..|vs| - 1], vs[|vs| - 1];
      VisitsDistinct(s, threshold, now, front);
      RenewKeeps(s, threshold, now, front);
      var t := RenewRun(s, threshold, now, front);
      CertNumbers(t, v.id);
      assert vs == front + [v];
      var a, b := set w | w in front :: w.id, set w | w in vs :: w.id;
      assert b == a + {v.id};
      assert v.id !in a;
    }
  }

  lemma Numbered(s: State)
    requires Inv(s)
    ensures NumberedFrom1(s.certs, s.nextCert)
  {}

  lemma CertNumbers(t: State, id: nat)
    requires Inv(t) && id in t.certs
    ensures 1 <= id <= t.nextCert
  {}

  /** Below the lifetime the loop ends: it visits at most the old entries and one new entry per renewal. */
  lemma RenewBounded(s: State, hours: int, now: int, vs: seq<Visit>)
    requires Inv(s) && Within(hours) < 2160 && LegalVisits(s, Threshold(hours, now), now, vs)
    ensures |vs| <= 2 * s.nextCert
  {
    var threshold := Threshold(hours, now);
    VisitsDistinct(s, threshold, now, vs);
    RenewProgress(s, hours, now, vs);
    var t := RenewRun(s, threshold, now, vs);
    var ids, due := set v | v in vs :: v.id, Due(s, threshold, vs);
    UpToSize(ids, t.nextCert);
    UpToSize(due, s.nextCert);
  }

  lemma {:induction false} UpToSize(ids: set<nat>, n: nat)
    requires forall id :: id in ids ==> 1 <= id <= n
    ensures |ids| <= n
  {
    if n == 0 {
      assert ids == {};
    } else {
      UpToSize(ids - {n}, n - 1);
    }
  }

  /** At or above the lifetime a new certificate qualifies at once, so the visits can go on for ever. */
  lemma {:induction false} RenewUnbounded(s: State, hours: int, now: int, first: nat, n: nat) returns (vs: seq<Visit>)
    requires Inv(s) && Within(hours) >= 2160
    requires first in s.certs && Qualifies(s.certs[first], Threshold(hours, now))
    ensures LegalVisits(s, Threshold(hours, now), now, vs) && |vs| == n
    ensures var t := RenewRun(s, Threshold(hours, now), now, vs);
      && t.nextCert == s.nextCert + n
      && (n > 0 ==> t.nextCert in t.certs && Qualifies(t.certs[t.nextCert], Threshold(hours, now)))
      && (forall v :: v in vs ==> v.id == first || s.nextCert < v.id < t.nextCert)
  {
    hide Inv;
    hide Qualifies;
    hide RenewVisit;
    var threshold := Threshold(hours, now);
    if n == 0 {
      vs := [];
    } else {
      var front := RenewUnbounded(s, hours, now, first, n - 1);
      var t := RenewRun(s, threshold, now, front);
      var v := Visit(if n == 1 then first else t.nextCert, now);
      CertNumbers(s, first);
      assert n == 1 ==> front == [];
      RenewedQualifies(t, threshold, v);
      vs := front + [v];
      assert vs[..|vs| - 1] == front;
    }
  }

  lemma RenewedQualifies(t: State, threshold: int, v: Visit)
    requires v.id in t.certs && Qualifies(t.certs[v.id], threshold) && v.at + LIFETIME <= threshold
    ensures var u := RenewVisit(t, threshold, v);
      u.nextCert == t.nextCert + 1 && u.nextCert in u.certs && Qualifies(u.certs[u.nextCert], threshold)
  {}

  // ------------------------------------------------------------------ store

  class AgentPkiStore {
    var nextCsr: nat
    var nextCert: nat
    var policy: Policy
    var csrs: map<nat, Csr>
    var certs: map<nat, Cert>

    function Snapshot(): State
      reads this
    {
      State(nextCsr, nextCert, policy, csrs, certs)
    }

    constructor (now: int)
      ensures Snapshot() == Initial(now)
    {
      nextCsr, nextCert, policy, csrs, certs := 0, 0, Policy(false, map[], now), map[], map[];
    }

    method SetPolicy(autoApprove: bool, required: map<string, string>, now: int)
      modifies this
      ensures MapCleaned(required, policy.required, TrimSpace)
      ensures Snapshot() == old(Snapshot()).(policy := Policy(autoApprove, policy.required, now))
    {
      var req := CleanMapLoop(required, TrimSpace);
      policy := Policy(autoApprove, req, now);
    }

    method IssueCertificate(agent: string, now: int) returns (id: nat)
      modifies this`nextCert, this`certs
      ensures Snapshot() == Issue(old(Snapshot()), agent, now) && id == nextCert
    {
      nextCert := nextCert + 1;
      certs := certs[nextCert := Cert(agent, Active, now, now + 90 * 24 * 3600, None, None)];
      id := nextCert;
    }

    method MatchesPolicy(attributes: map<string, string>) returns (ok: bool)
      ensures ok == Matches(attributes, policy.required)
    {
      var rest := policy.required.Keys;
      while rest != {}
        invariant rest <= policy.required.Keys
        invariant forall k :: k in policy.required.Keys - rest ==>
          (if k in attributes then TrimSpace(attributes[k]) else "") == policy.required[k]
      {
        var key :| key in rest;
        rest := rest - {key};
        if (if key in attributes then TrimSpace(attributes[key]) else "") != policy.required[key] { return false; }
      }
      return true;
    }

    method SubmitCsr(agent: string, raw: map<string, string>, now: int) returns (r: Option<nat>, ghost attributes: map<string, string>)
      modifies this
      ensures MapCleaned(raw, attributes, TrimSpace)
      ensures Snapshot() == Submit(old(Snapshot()), agent, attributes, now)
      ensures r == if Blank(agent) then None else Some(nextCsr)
    {
      hide Matches;
      hide TrimSpace;
      hide MapCleaned;
      hide Blank;
      var agentId := TrimSpace(agent);
      var attrs := CleanMapLoop(raw, TrimSpace);
      attributes := attrs;
      if Blank(agent) { return None, attributes; }
      var item := Csr(agentId, attrs, Pending, "", None, now, now);
      nextCsr := nextCsr + 1;
      csrs := csrs[nextCsr := item];
      if policy.autoApprove {
        var ok := MatchesPolicy(attrs);
        if ok {
          var cert := IssueCertificate(agentId, now);
          item := item.(status := Issued, cert := Some(cert), updatedAt := now);
          csrs := csrs[nextCsr := item];
          assert csrs == old(csrs)[nextCsr := item];
        }
      }
      return Some(nextCsr), attributes;
    }

    method DecideCsr(id: nat, decision: string, reason: string, now: int) returns (error: Option<Error>)
      modifies this
      ensures error == DecideError(old(Snapshot()), id, decision)
      ensures Snapshot() == Decide(old(Snapshot()), id, decision, reason, now)
    {
      var d := Norm(decision);
      if d != "approve" && d != "reject" { return Some(BadDecision); }
      if id !in csrs { return Some(NotFound); }
      var item := csrs[id];
      if item.status != Pending { return Some(NotPending); }
      if d == "approve" {
        var cert := IssueCertificate(item.agent, now);
        item := item.(status := Issued, cert := Some(cert));
      } else {
        item := item.(status := Rejected, reason := TrimSpace(reason));
      }
      csrs := csrs[id := item.(updatedAt := now)];
      return None;
    }

    method RevokeCertificate(id: nat, now: int) returns (found: bool)
      modifies this
      ensures found == (id in old(certs))
      ensures Snapshot() == Revoke(old(Snapshot()), id, now)
    {
      if id !in certs { return false; }
      if certs[id].status != Revoked {
        certs := certs[id := certs[id].(status := Revoked, revokedAt := Some(now))];
      }
      return true;
    }

    /** Looks for the latest active certificate in whatever order the map yields its entries. */
    method FindLatest(agent: string) returns (latest: Option<nat>)
      ensures LatestActive(Snapshot(), agent, latest)
    {
      latest := None;
      var rest := certs.Keys;
      while rest != {}
        invariant rest <= certs.Keys
        invariant latest.None? ==> forall id :: id in certs.Keys - rest ==> !ActiveFor(Snapshot(), agent, id)
        invariant latest.Some? ==> ActiveFor(Snapshot(), agent, latest.value) && forall id ::
          id in certs.Keys - rest && ActiveFor(Snapshot(), agent, id) ==> certs[id].issuedAt <= certs[latest.value].issuedAt
      {
        var id :| id in rest;
        rest := rest - {id};
        if certs[id].agent == agent && certs[id].status == Active {
          if latest.None? || certs[id].issuedAt > certs[latest.value].issuedAt { latest := Some(id); }
        }
      }
    }

    method RotateAgentCertificate(agent: string, now: int) returns (id: Option<nat>, ghost latest: Option<nat>)
      requires Inv(Snapshot())
      modifies this
      ensures LatestActive(old(Snapshot()), TrimSpace(agent), latest)
      ensures latest.Some? ==> latest.value in old(certs)
      ensures Snapshot() == Rotate(old(Snapshot()), agent, latest, now)
      ensures id == if Blank(agent) then None else Some(nextCert)
    {
      hide TrimSpace;
      var agentId := TrimSpace(agent);
      var found := FindLatest(agentId);
      latest := found;
      assert nextCert + 1 !in certs;
      if agentId == "" { return None, latest; }
      if found.Some? { certs := certs[found.value := certs[found.value].(status := Rotated)]; }
      var cert := IssueCertificate(agentId, now);
      if found.Some? {
        certs := certs[found.value := certs[found.value].(rotatedBy := Some(cert))];
      }
      return Some(cert), latest;
    }

    /** The body of the renewal loop. */
    method RenewOne(v: Visit, threshold: int) returns (issued: Option<nat>)
      requires Inv(Snapshot()) && v.id in certs
      modifies this`certs, this`nextCert
      ensures Snapshot() == RenewVisit(old(Snapshot()), threshold, v)
      ensures issued.Some? <==> old(certs)[v.id].status == Active && old(certs)[v.id].expiresAt <= threshold
      ensures issued.Some? ==> issued.value == nextCert == old(nextCert) + 1
      ensures issued.None? ==> nextCert == old(nextCert)
    {
      var cert := certs[v.id];
      if cert.status != Active || cert.expiresAt > threshold { return None; }
      assert nextCert + 1 !in certs;
      certs := certs[v.id := cert.(status := Rotated)];
      var id := IssueCertificate(cert.agent, v.at);
      certs := certs[v.id := certs[v.id].(rotatedBy := Some(id))];
      return Some(id);
    }

    /** The loop over the certificate map, given the visits the runtime makes. */
    method RenewExpiring(hours: int, now: int, visits: seq<Visit>) returns (renewed: seq<nat>)
      requires Inv(Snapshot())
      requires LegalVisits(Snapshot(), Threshold(hours, now), now, visits)
      modifies this
      ensures LegalVisits(old(Snapshot()), Threshold(hours, now), now, visits)
      ensures Snapshot() == RenewRun(old(Snapshot()), Threshold(hours, now), now, visits)
      ensures nextCert >= old(nextCert) && renewed == NumbersAfter(old(nextCert), nextCert)
      ensures forall n :: n in renewed ==> n !in old(certs) && n in certs
      ensures hours < 2160 && Complete(old(Snapshot()), visits) ==>
        && (forall n :: n in renewed ==> certs[n].status == Active)
        && Elems(renewed) == Heirs(Snapshot(), DueBy(old(Snapshot()), now + 3600 * (if hours <= 0 then 72 else hours)))
    {
      hide Inv;
      hide RenewVisit;
      hide Keeps;
      renewed := [];
      ghost var s := Snapshot();
      var within := if hours <= 0 then 72 else hours;
      var threshold := now + 3600 * within;
      LegalPrefix(s, threshold, now, visits, 0);
      for i := 0 to |visits|
        invariant LegalVisits(s, threshold, now, visits[..i])
        invariant Snapshot() == RenewRun(s, threshold, now, visits[..i])
        invariant nextCert >= s.nextCert && renewed == NumbersAfter(s.nextCert, nextCert)
      {
        LegalPrefix(s, threshold, now, visits, i + 1);
        assert visits[..i + 1][..i] == visits[..i];
        RenewKeeps(s, threshold, now, visits[..i]);
        var cert := RenewOne(visits[i], threshold);
        if cert.Some? { renewed := renewed + [cert.value]; }
      }
      assert visits[..|visits|] == visits;
      RenewKeeps(s, threshold, now, visits);
      RenewedAreNew(s, Snapshot());
      if hours < 2160 && Complete(s, visits) { RenewReportsSuccessors(s, hours, now, visits); }
    }
  }

  lemma RenewedAreNew(s: State, t: State)
    requires Inv(s) && Inv(t) && s.nextCert <= t.nextCert
    ensures forall n :: n in NumbersAfter(s.nextCert, t.nextCert) ==> n !in s.certs && n in t.certs
  {
    hide CertOk, CsrOk;
  }

  lemma {:induction false} LegalPrefix(s: State, threshold: int, now: int, vs: seq<Visit>, i: nat)
    requires LegalVisits(s, threshold, now, vs) && i <= |vs|
    ensures LegalVisits(s, threshold, now, vs[..i])
    decreases |vs|
  {
    if i < |vs| {
      LegalPrefix(s, threshold, now, vs[..|vs| - 1], i);
      assert vs[..|vs| - 1][..i] == vs[..i];
    } else {
      assert vs[..i] == vs;
    }
  }
}
