/**
 Break-glass access through multi-stage quorum approval (internal/control/access_approvals.go).
 Main results: in every reachable state each passed stage was approved by exactly the required number of
 different people, so access is active only after every quorum handed in with its policy; and rejected, revoked and expired
 requests never change again. Identifiers are the numbers behind the generated ids; times are in seconds.
 */
module BreakGlass {
  import opened Wrappers
  import opened Text

  datatype Stage = Stage(name: string, required: int)

  datatype Policy = Policy(name: string, stages: seq<Stage>, createdAt: int, updatedAt: int)

  datatype Status = Pending | Active | Rejected | Revoked | Expired

  datatype Decision = Approve | Reject | Revoke

  datatype Approval = Approval(actor: string, decision: Decision, comment: string, stage: nat, stageName: string, at: int)

  datatype Request = Request(
    requestedBy: string, reason: string, scope: string, policyId: nat, policyName: string, stages: seq<Stage>,
    currentStage: nat, status: Status, approvals: seq<Approval>, ttl: int, createdAt: int, updatedAt: int,
    activatedAt: Option<int>, expiresAt: Option<int>, rejectedAt: Option<int>, revokedAt: Option<int>,
    rejectionReason: string)

  datatype State = State(nextPolicy: nat, nextRequest: nat, policies: map<nat, Policy>, requests: map<nat, Request>)

  const INITIAL := State(0, 0, map[], map[])

  datatype Error =
    | NameRequired | NoStages | FieldsRequired | TtlTooShort | TtlTooLong | PolicyNotFound
    | ActorRequired | NotFound | NotPending | StageOutOfRange | AlreadyApproved | NotRevocable

  // --------------------------------------------------------------- policies

  /** A blank stage name gets a default, a non-positive quorum becomes one. */
  function NormalStage(s: Stage, i: nat): Stage {
    Stage(if Blank(s.name) then "stage-" + Itoa(i + 1) else TrimSpace(s.name), if s.required <= 0 then 1 else s.required)
  }

  function NormalStages(stages: seq<Stage>): (r: seq<Stage>)
    ensures |r| == |stages| && forall i :: 0 <= i < |r| ==> r[i].required >= 1
  {
    seq(|stages|, i requires 0 <= i < |stages| => NormalStage(stages[i], i))
  }

  function CreatePolicyError(name: string, stages: seq<Stage>): Option<Error> {
    if Blank(name) then Some(NameRequired) else if stages == [] then Some(NoStages) else None
  }

  function AddPolicy(s: State, name: string, stages: seq<Stage>, now: int): State {
    if CreatePolicyError(name, stages).Some? then s
    else
      var id := s.nextPolicy + 1;
      s.(nextPolicy := id, policies := s.policies[id := Policy(TrimSpace(name), NormalStages(stages), now, now)])
  }

  // --------------------------------------------------------------- requests

  function Ttl(seconds: int): int {
    if seconds <= 0 then 3600 else seconds
  }

  function CreateError(s: State, requester: string, reason: string, scope: string, policyId: nat, ttl: int): Option<Error> {
    if Blank(requester) || Blank(reason) || Blank(scope) then Some(FieldsRequired)
    else if Ttl(ttl) < 300 then Some(TtlTooShort)
    else if Ttl(ttl) > 86400 then Some(TtlTooLong)
    else if policyId !in s.policies then Some(PolicyNotFound)
    else None
  }

  function Create(s: State, requester: string, reason: string, scope: string, policyId: nat, ttl: int, now: int): State {
    if CreateError(s, requester, reason, scope, policyId, ttl).Some? then s
    else
      var id, p := s.nextRequest + 1, s.policies[policyId];
      var r := Request(TrimSpace(requester), TrimSpace(reason), TrimSpace(scope), policyId, p.name, p.stages,
                       0, Pending, [], Ttl(ttl), now, now, None, None, None, None, "");
      s.(nextRequest := id, requests := s.requests[id := r])
  }

  /** What the passage of time does to one request. */
  function Aged(r: Request, now: int): Request {
    if r.status == Active && r.expiresAt.Some? && now >= r.expiresAt.value
    then r.(status := Expired, updatedAt := now) else r
  }

  function Expire(s: State, now: int): State {
    s.(requests := map id | id in s.requests :: Aged(s.requests[id], now))
  }

  function Count(approvals: seq<Approval>, stage: nat): nat {
    if approvals == [] then 0
    else
      var a := approvals[|approvals| - 1];
      Count(approvals[..|approvals| - 1], stage) + (if a.stage == stage && a.decision == Approve then 1 else 0)
  }

  predicate SameActor(a: string, b: string) {
    ToLower(a) == ToLower(b)
  }

  predicate HasActed(r: Request, actor: string) {
    exists a :: a in r.approvals && a.stage == r.currentStage && SameActor(a.actor, actor)
  }

  function ApproveError(r: Request, actor: string): Option<Error> {
    if r.status != Pending then Some(NotPending)
    else if r.currentStage >= |r.stages| then Some(StageOutOfRange)
    else if HasActed(r, actor) then Some(AlreadyApproved)
    else None
  }

  /** One more approval; a met quorum opens the next stage, the last one activates the request. */
  function Approved(r: Request, actor: string, comment: string, now: int): Request
    requires r.currentStage < |r.stages|
  {
    var stage := r.stages[r.currentStage];
    var record := Approval(actor, Approve, TrimSpace(comment), r.currentStage, stage.name, now);
    var q := r.(approvals := r.approvals + [record], updatedAt := now);
    if Count(q.approvals, r.currentStage) < stage.required then q
    else if r.currentStage + 1 < |r.stages| then q.(currentStage := r.currentStage + 1)
    else q.(currentStage := r.currentStage + 1, status := Active,
            activatedAt := Some(now), expiresAt := Some(now + r.ttl))
  }

  function StageName(r: Request, otherwise: string): string {
    if r.currentStage < |r.stages| then r.stages[r.currentStage].name else otherwise
  }

  function RejectedBy(r: Request, actor: string, comment: string, now: int): Request {
    var record := Approval(actor, Reject, TrimSpace(comment), r.currentStage, StageName(r, "pending"), now);
    r.(approvals := r.approvals + [record], status := Rejected, rejectedAt := Some(now),
       rejectionReason := TrimSpace(comment), updatedAt := now)
  }

  function RevokedBy(r: Request, actor: string, reason: string, now: int): Request {
    var record := Approval(actor, Revoke, TrimSpace(reason), r.currentStage, StageName(r, "revoke"), now);
    r.(approvals := r.approvals + [record], status := Revoked, revokedAt := Some(now), updatedAt := now)
  }

  /** Why a decision on a request fails, judged after expiry at `now`. */
  function DecisionError(s: State, id: nat, actor: string, decision: Decision, now: int): Option<Error> {
    if Blank(actor) then Some(ActorRequired)
    else if id !in s.requests then Some(NotFound)
    else
      var r := Aged(s.requests[id], now);
      match decision
      case Approve => ApproveError(r, TrimSpace(actor))
      case Reject => if r.status != Pending then Some(NotPending) else None
      case Revoke => if r.status != Pending && r.status != Active then Some(NotRevocable) else None
  }

  function Decided(r: Request, actor: string, decision: Decision, comment: string, now: int): Request
    requires decision == Approve ==> r.currentStage < |r.stages|
  {
    match decision
    case Approve => Approved(r, actor, comment, now)
    case Reject => RejectedBy(r, actor, comment, now)
    case Revoke => RevokedBy(r, actor, comment, now)
  }

  /** Any decision first lets time pass for every request; a blank actor is refused before that. */
  function Decide(s: State, id: nat, actor: string, decision: Decision, comment: string, now: int): State {
    if Blank(actor) then s
    else
      var e := Expire(s, now);
      if DecisionError(s, id, actor, decision, now).Some? then e
      else e.(requests := e.requests[id := Decided(e.requests[id], TrimSpace(actor), decision, comment, now)])
  }

  // -------------------------------------------------------------- invariant

  /** The different people who approved a stage, case aside. */
  ghost function Approvers(approvals: seq<Approval>, stage: nat): set<string> {
    set a | a in approvals && a.stage == stage && a.decision == Approve :: ToLower(a.actor)
  }

  ghost predicate StageOk(r: Request, j: nat)
    requires j < |r.stages|
  {
    var n := Count(r.approvals, j);
    && (j < r.currentStage ==> n == r.stages[j].required)
    && (j == r.currentStage ==> n < r.stages[j].required)
    && (j > r.currentStage ==> n == 0)
    && |Approvers(r.approvals, j)| == n
  }

  ghost predicate StatusOk(r: Request) {
    && (r.status == Pending ==> r.currentStage < |r.stages| && forall a :: a in r.approvals ==> a.decision == Approve)
    && (r.status == Active || r.status == Expired ==> r.currentStage == |r.stages|)
    && (r.currentStage == |r.stages| <==> r.activatedAt.Some?)
    && (r.activatedAt.Some? <==> r.expiresAt.Some?)
    && (r.activatedAt.Some? ==> r.expiresAt.value == r.activatedAt.value + r.ttl)
    && (r.status == Rejected <==> r.rejectedAt.Some?) && (r.status == Revoked <==> r.revokedAt.Some?)
    && r.currentStage <= |r.stages| && r.stages != [] && 300 <= r.ttl <= 86400
  }

  ghost predicate RequestOk(r: Request) {
    && StatusOk(r)
    && (forall j :: 0 <= j < |r.stages| ==> r.stages[j].required >= 1 && StageOk(r, j))
    && (forall a :: a in r.approvals ==> a.stage <= r.currentStage)
  }

  ghost predicate Inv(s: State) {
    && (forall id :: id in s.requests ==> RequestOk(s.requests[id]) && 1 <= id <= s.nextRequest)
    && (forall id :: id in s.policies ==> PolicyOk(s.policies[id]) && 1 <= id <= s.nextPolicy)
  }

  predicate PolicyOk(p: Policy) {
    p.stages != [] && forall i :: 0 <= i < |p.stages| ==> p.stages[i].required >= 1
  }

  predicate Terminal(st: Status) {
    st == Rejected || st == Revoked || st == Expired
  }

  /** What every step guarantees about a request that already exists. */
  predicate Kept(r: Request, q: Request) {
    && q.stages == r.stages && q.policyId == r.policyId && q.policyName == r.policyName
    && q.requestedBy == r.requestedBy && q.reason == r.reason && q.scope == r.scope && q.ttl == r.ttl
    && q.createdAt == r.createdAt
    && r.approvals <= q.approvals && r.currentStage <= q.currentStage
    && (Terminal(r.status) ==> q == r)
    && (r.status == Active ==> q.status != Pending && q.expiresAt == r.expiresAt)
  }

  lemma CountSnoc(approvals: seq<Approval>, a: Approval, stage: nat)
    ensures Count(approvals + [a], stage) ==
      Count(approvals, stage) + (if a.stage == stage && a.decision == Approve then 1 else 0)
  {
    assert (approvals + [a])[..|approvals|] == approvals;
  }

  lemma ApproversSnoc(approvals: seq<Approval>, a: Approval, stage: nat)
    ensures Approvers(approvals + [a], stage) ==
      Approvers(approvals, stage) + (if a.stage == stage && a.decision == Approve then {ToLower(a.actor)} else {})
  {
    hide ToLower;
    assert forall x :: x in approvals + [a] <==> x in approvals || x == a;
  }

  /** A newcomer to the stage adds one approval and one person. */
  lemma RecordKeepsStages(r: Request, record: Approval, j: nat)
    requires RequestOk(r) && j < |r.stages| && record.stage == r.currentStage
    requires record.decision == Approve ==> !HasActed(r, record.actor)
    ensures var q := r.approvals + [record];
      && |Approvers(q, j)| == Count(q, j)
      && Count(q, j) == Count(r.approvals, j) + (if record.decision == Approve && j == r.currentStage then 1 else 0)
  {
    hide ToLower;
    assert StageOk(r, j);
    CountSnoc(r.approvals, record, j);
    ApproversSnoc(r.approvals, record, j);
    if record.decision == Approve && record.stage == j {
      forall a | a in r.approvals && a.stage == j && a.decision == Approve ensures ToLower(a.actor) != ToLower(record.actor) {
        assert SameActor(a.actor, record.actor) ==> HasActed(r, record.actor);
      }
    }
  }

  lemma ApprovedOk(r: Request, actor: string, comment: string, now: int)
    requires RequestOk(r) && ApproveError(r, actor) == None
    ensures RequestOk(Approved(r, actor, comment, now)) && Kept(r, Approved(r, actor, comment, now))
  {
    hide TrimSpace;
    hide Count;
    hide Approvers;
    var q := Approved(r, actor, comment, now);
    var record := q.approvals[|r.approvals|];
    assert q.approvals == r.approvals + [record];
    assert record.actor == actor && record.stage == r.currentStage && record.decision == Approve;
    forall j | 0 <= j < |q.stages| ensures StageOk(q, j) {
      assert StageOk(r, j);
      RecordKeepsStages(r, record, j);
    }
    assert StageOk(r, r.currentStage);
    RecordKeepsStages(r, record, r.currentStage);
  }

  lemma ClosedOk(r: Request, decision: Decision, actor: string, comment: string, now: int)
    requires RequestOk(r) && decision != Approve
    requires r.status == Pending || (decision == Revoke && r.status == Active)
    ensures RequestOk(Decided(r, actor, decision, comment, now)) && Kept(r, Decided(r, actor, decision, comment, now))
  {
    hide TrimSpace;
    hide Count;
    var q := Decided(r, actor, decision, comment, now);
    var record := q.approvals[|r.approvals|];
    assert q.approvals == r.approvals + [record];
    assert record.stage == r.currentStage && record.decision == decision;
    forall j | 0 <= j < |q.stages| ensures StageOk(q, j) {
      assert StageOk(r, j);
      RecordKeepsStages(r, record, j);
    }
  }

  lemma AgedOk(r: Request, now: int)
    requires RequestOk(r)
    ensures RequestOk(Aged(r, now)) && Kept(r, Aged(r, now))
  {
    var q := Aged(r, now);
    forall j | 0 <= j < |q.stages| ensures StageOk(q, j) { assert StageOk(r, j); }
  }

  lemma KeptTrans(a: Request, b: Request, c: Request)
    requires Kept(a, b) && Kept(b, c)
    ensures Kept(a, c)
  {}

  // ------------------------------------------------------------------- runs

  datatype Op =
    | NewPolicy(name: string, stages: seq<Stage>, now: int)
    | NewRequest(requester: string, reason: string, scope: string, policyId: nat, ttl: int, now: int)
    | Decision(id: nat, actor: string, decision: Decision, comment: string, now: int)
    | Look(now: int)

  function Step(s: State, op: Op): State {
    match op
    case NewPolicy(name, stages, now) => AddPolicy(s, name, stages, now)
    case NewRequest(requester, reason, scope, policyId, ttl, now) => Create(s, requester, reason, scope, policyId, ttl, now)
    case Decision(id, actor, decision, comment, now) => Decide(s, id, actor, decision, comment, now)
    case Look(now) => Expire(s, now)
  }

  ghost predicate AllKept(s: State, t: State) {
    forall id :: id in s.requests ==> id in t.requests && Kept(s.requests[id], t.requests[id])
  }

  lemma ExpireOk(s: State, now: int)
    requires Inv(s)
    ensures Inv(Expire(s, now)) && AllKept(s, Expire(s, now))
  {
    hide RequestOk;
    hide Kept;
    hide Aged;
    forall id | id in s.requests ensures RequestOk(Aged(s.requests[id], now)) && Kept(s.requests[id], Aged(s.requests[id], now)) {
      AgedOk(s.requests[id], now);
    }
  }

  lemma CreateOk(s: State, requester: string, reason: string, scope: string, policyId: nat, ttl: int, now: int)
    requires Inv(s)
    ensures var t := Create(s, requester, reason, scope, policyId, ttl, now); Inv(t) && AllKept(s, t)
  {
    hide TrimSpace;
    hide Count;
    hide Approvers;
    var t := Create(s, requester, reason, scope, policyId, ttl, now);
    if CreateError(s, requester, reason, scope, policyId, ttl) == None {
      var r := t.requests[s.nextRequest + 1];
      assert PolicyOk(s.policies[policyId]);
      forall j | 0 <= j < |r.stages| ensures r.stages[j].required >= 1 && StageOk(r, j) { NoApprovals(j); }
      assert RequestOk(r);
      assert s.nextRequest + 1 !in s.requests;
    }
  }

  lemma NoApprovals(j: nat)
    ensures Count([], j) == 0 && |Approvers([], j)| == 0
  {
    assert Approvers([], j) == {};
  }

  lemma DecideOk(s: State, id: nat, actor: string, decision: Decision, comment: string, now: int)
    requires Inv(s)
    ensures var t := Decide(s, id, actor, decision, comment, now); Inv(t) && AllKept(s, t)
  {
    hide TrimSpace;
    hide RequestOk;
    hide Kept;
    hide Aged;
    hide Decided;
    hide HasActed;
    if !Blank(actor) {
      ExpireOk(s, now);
      var e := Expire(s, now);
      if DecisionError(s, id, actor, decision, now) == None {
        var r := e.requests[id];
        assert r == Aged(s.requests[id], now);
        DecidedOk(r, TrimSpace(actor), decision, comment, now);
        KeptTrans(s.requests[id], r, Decided(r, TrimSpace(actor), decision, comment, now));
      }
    } else {
      forall j | j in s.requests ensures Kept(s.requests[j], s.requests[j]) { KeptSelf(s.requests[j]); }
    }
  }

  lemma KeptSelf(r: Request)
    ensures Kept(r, r)
  {}

  lemma DecidedOk(r: Request, actor: string, decision: Decision, comment: string, now: int)
    requires RequestOk(r)
    requires match decision
      case Approve => ApproveError(r, actor) == None
      case Reject => r.status == Pending
      case Revoke => r.status == Pending || r.status == Active
    ensures var q := Decided(r, actor, decision, comment, now); RequestOk(q) && Kept(r, q)
  {
    hide RequestOk;
    hide Kept;
    if decision == Approve { ApprovedOk(r, actor, comment, now); } else { ClosedOk(r, decision, actor, comment, now); }
  }

  lemma StepOk(s: State, op: Op)
    requires Inv(s)
    ensures Inv(Step(s, op)) && AllKept(s, Step(s, op))
  {
    hide RequestOk;
    hide Kept;
    match op {
      case NewPolicy(name, stages, now) =>
        forall id | id in s.requests ensures Kept(s.requests[id], s.requests[id]) { KeptSelf(s.requests[id]); }
      case NewRequest(requester, reason, scope, policyId, ttl, now) => CreateOk(s, requester, reason, scope, policyId, ttl, now);
      case Decision(id, actor, decision, comment, now) => DecideOk(s, id, actor, decision, comment, now);
      case Look(now) => ExpireOk(s, now);
    }
  }

  function Run(ops: seq<Op>): State {
    if ops == [] then INITIAL else Step(Run(ops[..|ops| - 1]), ops[|ops| - 1])
  }

  /** The invariant holds in every reachable state. */
  lemma {:induction false} RunOk(ops: seq<Op>)
    ensures Inv(Run(ops))
  {
    if ops != [] {
      RunOk(ops[..|ops| - 1]);
      StepOk(Run(ops[..|ops| - 1]), ops[|ops| - 1]);
    }
  }

  // -------------------------------------------------- policies and their requests

  /** The approvals asked for: as handed in, but at least one. */
  function Quorum(stage: Stage): int {
    if stage.required <= 0 then 1 else stage.required
  }

  /** The policy is the one the operation asked for. */
  ghost predicate HandedIn(op: Op, p: Policy) {
    && op.NewPolicy? && p.name == TrimSpace(op.name) && p.createdAt == p.updatedAt == op.now && |p.stages| == |op.stages|
    && forall j :: 0 <= j < |p.stages| ==>
         && p.stages[j].required == Quorum(op.stages[j])
         && p.stages[j].name == if Blank(op.stages[j].name) then "stage-" + Itoa(j + 1) else TrimSpace(op.stages[j].name)
  }

  /** A policy with a name and a stage is stored as handed in, under a new number; otherwise nothing changes. */
  lemma PolicyOutcome(s: State, op: Op)
    requires Inv(s) && op.NewPolicy?
    ensures var t, id := Step(s, op), s.nextPolicy + 1;
      && id !in s.policies && (CreatePolicyError(op.name, op.stages) == None <==> !Blank(op.name) && op.stages != [])
      && (CreatePolicyError(op.name, op.stages).Some? ==> t == s)
      && (CreatePolicyError(op.name, op.stages) == None ==>
            && t.requests == s.requests && t.nextPolicy == id && t.policies == s.policies[id := t.policies[id]]
            && HandedIn(op, t.policies[id]))
  {
    hide TrimSpace, RequestOk;
  }

  /**
   A request is created exactly when its texts are given, its time to live is between 300 and 86400 seconds or left
   to the default, and its policy exists; it waits at the first of exactly its policy's stages.
   */
  lemma CreateOutcome(s: State, requester: string, reason: string, scope: string, policyId: nat, ttl: int, now: int)
    requires Inv(s)
    ensures var t, id := Create(s, requester, reason, scope, policyId, ttl, now), s.nextRequest + 1;
      var error := CreateError(s, requester, reason, scope, policyId, ttl);
      && id !in s.requests
      && (error == None <==>
            && !Blank(requester) && !Blank(reason) && !Blank(scope) && policyId in s.policies
            && (ttl <= 0 || 300 <= ttl <= 86400))
      && (error.Some? ==> t == s)
      && (error == None ==>
            && t.policies == s.policies && t.nextPolicy == s.nextPolicy && t.nextRequest == id
            && t.requests == s.requests[id := t.requests[id]]
            && var r := t.requests[id];
               && r.requestedBy == TrimSpace(requester) && r.reason == TrimSpace(reason) && r.scope == TrimSpace(scope)
               && r.policyId == policyId && r.policyName == s.policies[policyId].name
               && r.stages == s.policies[policyId].stages && r.currentStage == 0 && r.status == Pending
               && r.approvals == [] && r.ttl == (if ttl <= 0 then 3600 else ttl) && r.createdAt == r.updatedAt == now
               && r.activatedAt == r.expiresAt == r.rejectedAt == r.revokedAt == None && r.rejectionReason == "")
  {
    hide TrimSpace, RequestOk;
  }

  /** Every request has exactly the stages of its policy. */
  ghost predicate StagesFollow(s: State) {
    forall id :: id in s.requests ==>
      var r := s.requests[id];
      r.policyId in s.policies && r.stages == s.policies[r.policyId].stages && r.policyName == s.policies[r.policyId].name
  }

  ghost predicate PoliciesKept(s: State, t: State) {
    forall p :: p in s.policies ==> p in t.policies && t.policies[p] == s.policies[p]
  }

  lemma StepKeepsPolicies(s: State, op: Op)
    requires Inv(s)
    ensures PoliciesKept(s, Step(s, op))
    ensures StagesFollow(s) ==> StagesFollow(Step(s, op))
  {
    hide TrimSpace, RequestOk, Kept;
    var t := Step(s, op);
    if op.NewPolicy? { PolicyOutcome(s, op); }
    if op.NewRequest? { CreateOutcome(s, op.requester, op.reason, op.scope, op.policyId, op.ttl, op.now); }
    StepOk(s, op);
    hide Step;
    if StagesFollow(s) && !op.NewRequest? {
      OldRequests(s, op);
      forall id | id in t.requests ensures SameTerms(s.requests[id], t.requests[id]) {
        KeptTerms(s.requests[id], t.requests[id]);
      }
    }
  }

  predicate SameTerms(r: Request, q: Request) {
    q.stages == r.stages && q.policyId == r.policyId && q.policyName == r.policyName
  }

  lemma KeptTerms(r: Request, q: Request)
    requires Kept(r, q)
    ensures SameTerms(r, q)
  {}

  lemma OldRequests(s: State, op: Op)
    requires !op.NewRequest?
    ensures Step(s, op).requests.Keys == s.requests.Keys
  {
    hide TrimSpace, Decided, ApproveError, Aged;
  }

  /** In every run policies never change, and every request has exactly the stages of its policy. */
  lemma {:induction false} PoliciesStand(ops: seq<Op>, more: seq<Op>)
    ensures PoliciesKept(Run(ops), Run(ops + more)) && StagesFollow(Run(ops + more))
    decreases |ops| + |more|, |more|
  {
    hide PoliciesKept, StagesFollow, Step;
    if more != [] {
      var front := ops + more[..|more| - 1];
      PoliciesStand(ops, more[..|more| - 1]);
      assert (ops + more)[..|ops + more| - 1] == front;
      RunOk(front);
      StepKeepsPolicies(Run(front), more[|more| - 1]);
      KeptPoliciesTrans(Run(ops), Run(front), Run(ops + more));
    } else {
      assert ops + more == ops;
      SamePolicies(Run(ops));
      if ops == [] {
        NoRequests();
      } else {
        PoliciesStand([], ops[..|ops| - 1]);
        assert [] + ops[..|ops| - 1] == ops[..|ops| - 1];
        RunOk(ops[..|ops| - 1]);
        StepKeepsPolicies(Run(ops[..|ops| - 1]), ops[|ops| - 1]);
      }
    }
  }

  lemma SamePolicies(s: State)
    ensures PoliciesKept(s, s)
  {}

  lemma NoRequests()
    ensures StagesFollow(INITIAL)
  {}

  lemma KeptPoliciesTrans(s: State, t: State, u: State)
    requires PoliciesKept(s, t) && PoliciesKept(t, u)
    ensures PoliciesKept(s, u)
  {}

  /** Step `i` created the policy, as number `id` and as handed in. */
  ghost predicate Created(ops: seq<Op>, i: nat, id: nat, p: Policy) {
    i < |ops| && Run(ops[..i]).nextPolicy + 1 == id && HandedIn(ops[i], p)
  }

  lemma {:induction false} PolicyOrigin(ops: seq<Op>, id: nat) returns (i: nat)
    requires id in Run(ops).policies
    ensures Created(ops, i, id, Run(ops).policies[id])
  {
    hide Step, HandedIn;
    var n := |ops| - 1;
    var s := Run(ops[..n]);
    RunOk(ops[..n]);
    StepKeepsPolicies(s, ops[n]);
    if id in s.policies {
      i := PolicyOrigin(ops[..n], id);
      assert ops[..n][..i] == ops[..i];
    } else {
      i := n;
      NewPolicies(s, ops[n], id);
    }
  }

  lemma NewPolicies(s: State, op: Op, id: nat)
    requires Inv(s) && id !in s.policies && id in Step(s, op).policies
    ensures id == s.nextPolicy + 1 && HandedIn(op, Step(s, op).policies[id])
  {
    hide TrimSpace, RequestOk, Decided, DecisionError;
    if op.NewPolicy? { PolicyOutcome(s, op); }
    if op.NewRequest? { CreateOutcome(s, op.requester, op.reason, op.scope, op.policyId, op.ttl, op.now); }
  }

  /**
   Active (or since expired) access met every quorum that was handed in with its policy: each stage was approved by
   exactly that number of people, all different when case is ignored.
   */
  lemma AccessMetEveryQuorum(ops: seq<Op>, id: nat)
    requires id in Run(ops).requests
    ensures var r := Run(ops).requests[id];
      r.status == Active || r.status == Expired ==>
        exists i :: 0 <= i < |ops| && ops[i].NewPolicy? && Run(ops[..i]).nextPolicy + 1 == r.policyId
          && |r.stages| == |ops[i].stages|
          && forall j :: 0 <= j < |r.stages| ==>
               |Approvers(r.approvals, j)| == Count(r.approvals, j) == r.stages[j].required == Quorum(ops[i].stages[j])
  {
    hide Run, Count, Approvers;
    RunOk(ops);
    PoliciesStand(ops, []);
    assert ops + [] == ops;
    var r := Run(ops).requests[id];
    var i := PolicyOrigin(ops, r.policyId);
    if r.status == Active || r.status == Expired {
      forall j | 0 <= j < |r.stages|
        ensures |Approvers(r.approvals, j)| == Count(r.approvals, j) == r.stages[j].required == Quorum(ops[i].stages[j])
      {
        assert StageOk(r, j);
      }
    }
  }

  /**
   Rejecting takes a pending request, revoking a pending or active one, judged after its time may have run out; the
   request ends at once, with who and why on record.
   */
  lemma WithdrawOutcome(s: State, id: nat, actor: string, decision: Decision, comment: string, now: int)
    requires Inv(s) && decision != Approve
    ensures var error, t := DecisionError(s, id, actor, decision, now), Decide(s, id, actor, decision, comment, now);
      && (error == None <==>
            && !Blank(actor) && id in s.requests
            && var r := s.requests[id];
               || r.status == Pending
               || (decision == Revoke && r.status == Active && r.expiresAt.Some? && now < r.expiresAt.value))
      && (error == None ==>
            && id in s.requests && id in t.requests
            && var r, q := s.requests[id], t.requests[id];
               && q.status == (if decision == Reject then Rejected else Revoked) && |q.approvals| == |r.approvals| + 1
               && r.approvals <= q.approvals && q.updatedAt == now
               && var a := q.approvals[|r.approvals|];
                  && a.actor == TrimSpace(actor) && a.decision == decision && a.comment == TrimSpace(comment)
                  && a.stage == r.currentStage && a.at == now
                  && (r.currentStage < |r.stages| ==> a.stageName == r.stages[r.currentStage].name)
                  && (r.currentStage >= |r.stages| ==> a.stageName == "revoke")
                  && (decision == Reject ==> q.rejectedAt == Some(now) && q.rejectionReason == TrimSpace(comment))
                  && (decision == Revoke ==> q.revokedAt == Some(now)))
      && (error.Some? ==> t == if Blank(actor) then s else Expire(s, now))
  {
    hide TrimSpace, Count;
    if id in s.requests { assert RequestOk(s.requests[id]); }
  }

  /** The passage of time ends exactly the active requests at or past their expiry, and touches nothing else. */
  lemma LookOutcome(s: State, now: int, id: nat)
    requires Inv(s) && id in s.requests
    ensures var r, q := s.requests[id], Expire(s, now).requests[id];
      if r.status == Active && r.activatedAt.Some? && r.activatedAt.value + r.ttl <= now
      then q == r.(status := Expired, updatedAt := now) else q == r
    ensures Expire(s, now).requests.Keys == s.requests.Keys && Expire(s, now).policies == s.policies
  {
    assert RequestOk(s.requests[id]);
  }

  /**
   An accepted approval adds exactly one record; it moves the request on exactly when one approval was missing,
   and activates it, for its time to live, exactly when that was the last stage.
   */
  lemma ApproveOutcome(s: State, id: nat, actor: string, comment: string, now: int)
    requires Inv(s) && DecisionError(s, id, actor, Approve, now) == None
    ensures id in s.requests && s.requests[id].status == Pending && s.requests[id].currentStage < |s.requests[id].stages|
    ensures var r, t := s.requests[id], Decide(s, id, actor, Approve, comment, now);
      var q, stage := t.requests[id], r.stages[r.currentStage];
      var met := Count(r.approvals, r.currentStage) + 1 == stage.required;
      && q.approvals == r.approvals + [Approval(TrimSpace(actor), Approve, TrimSpace(comment), r.currentStage, stage.name, now)]
      && q.currentStage == r.currentStage + (if met then 1 else 0)
      && q.status == (if met && r.currentStage + 1 == |r.stages| then Active else Pending)
      && (q.status == Active ==> q.activatedAt == Some(now) && q.expiresAt == Some(now + r.ttl))
      && forall j :: j in s.requests && j != id ==> j in t.requests && t.requests[j] == Aged(s.requests[j], now)
  {
    hide TrimSpace;
    hide Count;
    hide HasActed;
    var r := s.requests[id];
    assert Aged(r, now) == r;
    assert RequestOk(r) && StageOk(r, r.currentStage);
    CountSnoc(r.approvals, Approval(TrimSpace(actor), Approve, TrimSpace(comment), r.currentStage,
                                    r.stages[r.currentStage].name, now), r.currentStage);
  }

  /** A pending request takes an approval from anyone who has not yet approved its stage, whatever their capitals. */
  lemma ApproveRefusedIff(s: State, id: nat, actor: string, now: int)
    requires Inv(s) && id in s.requests && s.requests[id].status == Pending && !Blank(actor)
    ensures DecisionError(s, id, actor, Approve, now) == None <==>
            ToLower(TrimSpace(actor)) !in Approvers(s.requests[id].approvals, s.requests[id].currentStage)
  {
    hide TrimSpace;
    hide ToLower;
    var r := s.requests[id];
    assert RequestOk(r) && StatusOk(r);
    if ToLower(TrimSpace(actor)) in Approvers(r.approvals, r.currentStage) {
      var a :| a in r.approvals && a.stage == r.currentStage && a.decision == Approve && ToLower(a.actor) == ToLower(TrimSpace(actor));
      assert SameActor(a.actor, TrimSpace(actor));
    }
    if HasActed(r, TrimSpace(actor)) {
      var a :| a in r.approvals && a.stage == r.currentStage && SameActor(a.actor, TrimSpace(actor));
      assert a.decision == Approve;
    }
  }

  /** A pending request always has a stage to approve: the range check never fires. */
  lemma StageNeverOutOfRange(ops: seq<Op>, id: nat, actor: string, now: int)
    ensures DecisionError(Run(ops), id, actor, Approve, now) != Some(StageOutOfRange)
  {
    hide TrimSpace;
    hide HasActed;
    RunOk(ops);
    if id in Run(ops).requests { AgedOk(Run(ops).requests[id], now); }
  }

  /** Whatever happens later, a request keeps its history, and a terminal one does not change at all. */
  lemma {:induction false} TerminalForever(ops: seq<Op>, more: seq<Op>, id: nat)
    requires id in Run(ops).requests
    ensures id in Run(ops + more).requests && Kept(Run(ops).requests[id], Run(ops + more).requests[id])
  {
    hide Kept;
    hide Step;
    if more == [] {
      assert ops + more == ops;
      KeptSelf(Run(ops).requests[id]);
    } else {
      var front := ops + more[..|more| - 1];
      TerminalForever(ops, more[..|more| - 1], id);
      assert (ops + more)[..|ops + more| - 1] == front;
      RunOk(front);
      StepOk(Run(front), more[|more| - 1]);
      KeptTrans(Run(ops).requests[id], Run(front).requests[id], Run(ops + more).requests[id]);
    }
  }

  predicate InTime(r: Request, now: int) {
    r.status == Active ==> r.expiresAt.Some? && now < r.expiresAt.value
  }

  lemma AgedInTime(r: Request, now: int)
    requires RequestOk(r)
    ensures InTime(Aged(r, now), now)
  {}

  lemma DecidedInTime(r: Request, actor: string, decision: Decision, comment: string, now: int)
    requires RequestOk(r) && InTime(r, now) && (decision == Approve ==> r.currentStage < |r.stages|)
    ensures InTime(Decided(r, actor, decision, comment, now), now)
  {
    hide TrimSpace;
    hide Count;
  }

  /** Looking, approving, rejecting or revoking at `now` leaves no request active past its expiry. */
  lemma NothingOverstays(s: State, op: Op, id: nat)
    requires Inv(s)
    requires op.Look? || (op.Decision? && !Blank(op.actor))
    requires id in Step(s, op).requests
    ensures InTime(Step(s, op).requests[id], op.now)
  {
    hide TrimSpace;
    hide RequestOk;
    hide Decided;
    hide InTime;
    hide Aged;
    hide HasActed;
    AgedInTime(s.requests[id], op.now);
    if op.Decision? && op.id == id && DecisionError(s, id, op.actor, op.decision, op.now) == None {
      AgedOk(s.requests[id], op.now);
      DecidedInTime(Aged(s.requests[id], op.now), TrimSpace(op.actor), op.decision, op.comment, op.now);
    }
  }

  // ------------------------------------------------------------------ store

  class AccessApprovalStore {
    var nextPolicy: nat
    var nextRequest: nat
    var policies: map<nat, Policy>
    var requests: map<nat, Request>

    function Snapshot(): State
      reads this
    {
      State(nextPolicy, nextRequest, policies, requests)
    }

    constructor ()
      ensures Snapshot() == INITIAL
    {
      nextPolicy, nextRequest, policies, requests := 0, 0, map[], map[];
    }

    method CreatePolicy(name: string, stages: seq<Stage>, now: int) returns (error: Option<Error>)
      modifies this
      ensures error == CreatePolicyError(name, stages)
      ensures Snapshot() == AddPolicy(old(Snapshot()), name, stages, now)
    {
      if TrimSpace(name) == "" { return Some(NameRequired); }
      if |stages| == 0 { return Some(NoStages); }
      var out: seq<Stage> := [];
      for i := 0 to |stages|
        invariant out == NormalStages(stages)[..i]
      {
        var stageName := TrimSpace(stages[i].name);
        if stageName == "" { stageName := "stage-" + Itoa(i + 1); }
        var required := stages[i].required;
        if required <= 0 { required := 1; }
        out := out + [Stage(stageName, required)];
      }
      assert out == NormalStages(stages);
      nextPolicy := nextPolicy + 1;
      policies := policies[nextPolicy := Policy(TrimSpace(name), out, now, now)];
      return None;
    }

    method CreateRequest(requester: string, reason: string, scope: string, policyId: nat, ttlSeconds: int, now: int)
      returns (error: Option<Error>)
      modifies this
      ensures error == CreateError(old(Snapshot()), requester, reason, scope, policyId, ttlSeconds)
      ensures Snapshot() == Create(old(Snapshot()), requester, reason, scope, policyId, ttlSeconds, now)
    {
      if TrimSpace(requester) == "" || TrimSpace(reason) == "" || TrimSpace(scope) == "" { return Some(FieldsRequired); }
      var ttl := ttlSeconds;
      if ttl <= 0 { ttl := 3600; }
      if ttl < 300 { return Some(TtlTooShort); }
      if ttl > 86400 { return Some(TtlTooLong); }
      if policyId !in policies { return Some(PolicyNotFound); }
      var policy := policies[policyId];
      nextRequest := nextRequest + 1;
      requests := requests[nextRequest := Request(
        TrimSpace(requester), TrimSpace(reason), TrimSpace(scope), policyId, policy.name, policy.stages,
        0, Pending, [], ttl, now, now, None, None, None, None, "")];
      return None;
    }

    /** Ranges over the requests and marks those whose time is up. */
    method ExpireRequests(now: int)
      modifies this`requests
      ensures Snapshot() == Expire(old(Snapshot()), now)
    {
      var rest := requests.Keys;
      while rest != {}
        invariant rest <= requests.Keys == old(requests).Keys
        invariant forall id :: id in requests ==>
          requests[id] == if id in rest then old(requests)[id] else Aged(old(requests)[id], now)
      {
        var id :| id in rest;
        rest := rest - {id};
        var r := requests[id];
        if r.status == Active && r.expiresAt.Some? && now >= r.expiresAt.value {
          requests := requests[id := r.(status := Expired, updatedAt := now)];
        }
      }
    }

    method CountApprovals(r: Request, stage: nat) returns (total: nat)
      ensures total == Count(r.approvals, stage)
    {
      total := 0;
      for i := 0 to |r.approvals|
        invariant total == Count(r.approvals[..i], stage)
      {
        assert r.approvals[..i + 1][..i] == r.approvals[..i];
        if r.approvals[i].stage == stage && r.approvals[i].decision == Approve { total := total + 1; }
      }
      assert r.approvals[..|r.approvals|] == r.approvals;
    }

    method ApproveRequest(id: nat, actor: string, comment: string, now: int) returns (error: Option<Error>)
      modifies this
      ensures error == DecisionError(old(Snapshot()), id, actor, Approve, now)
      ensures Snapshot() == Decide(old(Snapshot()), id, actor, Approve, comment, now)
    {
      hide TrimSpace;
      hide Count;
      hide SameActor;
      var who := TrimSpace(actor);
      if who == "" { return Some(ActorRequired); }
      ExpireRequests(now);
      if id !in requests { return Some(NotFound); }
      var r := requests[id];
      if r.status != Pending { return Some(NotPending); }
      if r.currentStage >= |r.stages| { return Some(StageOutOfRange); }
      var stage := r.stages[r.currentStage];
      for i := 0 to |r.approvals|
        invariant forall k :: 0 <= k < i ==> !(r.approvals[k].stage == r.currentStage && SameActor(r.approvals[k].actor, who))
      {
        if r.approvals[i].stage == r.currentStage && SameActor(r.approvals[i].actor, who) { return Some(AlreadyApproved); }
      }
      var current := r.currentStage;
      r := r.(approvals := r.approvals + [Approval(who, Approve, TrimSpace(comment), current, stage.name, now)]);
      var total := CountApprovals(r, current);
      if total >= stage.required {
        r := r.(currentStage := current + 1);
        if r.currentStage >= |r.stages| {
          r := r.(status := Active, activatedAt := Some(now), expiresAt := Some(now + r.ttl));
        }
      }
      requests := requests[id := r.(updatedAt := now)];
      return None;
    }

    method RejectRequest(id: nat, actor: string, comment: string, now: int) returns (error: Option<Error>)
      modifies this
      ensures error == DecisionError(old(Snapshot()), id, actor, Reject, now)
      ensures Snapshot() == Decide(old(Snapshot()), id, actor, Reject, comment, now)
    {
      hide TrimSpace;
      var who := TrimSpace(actor);
      if who == "" { return Some(ActorRequired); }
      ExpireRequests(now);
      if id !in requests { return Some(NotFound); }
      var r := requests[id];
      if r.status != Pending { return Some(NotPending); }
      var stageName := "pending";
      if r.currentStage < |r.stages| { stageName := r.stages[r.currentStage].name; }
      r := r.(approvals := r.approvals + [Approval(who, Reject, TrimSpace(comment), r.currentStage, stageName, now)]);
      r := r.(status := Rejected, rejectedAt := Some(now), rejectionReason := TrimSpace(comment), updatedAt := now);
      requests := requests[id := r];
      return None;
    }

    method RevokeRequest(id: nat, actor: string, reason: string, now: int) returns (error: Option<Error>)
      modifies this
      ensures error == DecisionError(old(Snapshot()), id, actor, Revoke, now)
      ensures Snapshot() == Decide(old(Snapshot()), id, actor, Revoke, reason, now)
    {
      hide TrimSpace;
      var who := TrimSpace(actor);
      if who == "" { return Some(ActorRequired); }
      ExpireRequests(now);
      if id !in requests { return Some(NotFound); }
      var r := requests[id];
      if r.status != Pending && r.status != Active { return Some(NotRevocable); }
      var stageName := "revoke";
      if r.currentStage < |r.stages| { stageName := r.stages[r.currentStage].name; }
      r := r.(approvals := r.approvals + [Approval(who, Revoke, TrimSpace(reason), r.currentStage, stageName, now)]);
      r := r.(status := Revoked, revokedAt := Some(now), updatedAt := now);
      requests := requests[id := r];
      return None;
    }
  }
}
