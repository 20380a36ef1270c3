/**
 Bounded-use delegation tokens (internal/control/delegation_tokens.go).
 Main results: over any run the allowed validations of a token number exactly its use count and never exceed
 its maximum; once revoked, or once any call has seen its expiry, it is never allowed again, even if a later
 call carries an earlier time. Ids are the numbers behind "delegation-n"; times are in seconds.
 */
module DelegationTokens {
  import opened Wrappers
  import opened Text
  import opened Normalize

  datatype Token = Token(
    grantor: string, delegatee: string, pipelineId: string, scopes: seq<string>, ttl: int, maxUses: int,
    usedCount: int, createdAt: int, expiresAt: int, revokedAt: Option<int>)

  datatype Record = Record(item: Token, hash: string)

  datatype State = State(nextId: nat, tokens: map<nat, Record>, index: map<string, nat>)

  const INITIAL := State(0, map[], map[])

  /** SHA-256 of the token text. */
  type Hash = string -> string

  datatype Request = Request(
    grantor: string, delegatee: string, pipelineId: string, scopes: seq<string>, ttl: int, maxUses: int)

  datatype IssueError = PartiesRequired | TtlTooShort | TtlTooLong | TooManyUses | ScopeRequired

  datatype Reason = Accepted | TokenRequired | NotRecognized | RevokedToken | ExpiredToken | ScopeNotGranted | Exhausted

  datatype Verdict = Verdict(allowed: bool, reason: Reason, id: Option<nat>, remaining: nat)

  // ------------------------------------------------------------- operations

  function Ttl(r: Request): int { if r.ttl <= 0 then 900 else r.ttl }

  function MaxUses(r: Request): int { if r.maxUses <= 0 then 1 else r.maxUses }

  function Scopes(r: Request): seq<string> { SortedClean(r.scopes, Norm) }

  function CheckRequest(r: Request): Option<IssueError> {
    if Blank(r.grantor) || Blank(r.delegatee) then Some(PartiesRequired)
    else if Ttl(r) < 60 then Some(TtlTooShort)
    else if Ttl(r) > 86400 then Some(TtlTooLong)
    else if MaxUses(r) > 100 then Some(TooManyUses)
    else if Scopes(r) == [] then Some(ScopeRequired)
    else None
  }

  function Issue(s: State, h: Hash, r: Request, token: string, now: int): State {
    if CheckRequest(r).Some? then s
    else
      var id := s.nextId + 1;
      var item := Token(TrimSpace(r.grantor), TrimSpace(r.delegatee), TrimSpace(r.pipelineId), Scopes(r),
                        Ttl(r), MaxUses(r), 0, now, now + Ttl(r), None);
      State(id, s.tokens[id := Record(item, h(token))], s.index[h(token) := id])
  }

  /** A token seen at or past its expiry is revoked, as of its expiry. */
  function Swept(r: Record, now: int): Record {
    if r.item.revokedAt.None? && now >= r.item.expiresAt
    then r.(item := r.item.(revokedAt := Some(r.item.expiresAt))) else r
  }

  function Sweep(s: State, now: int): State {
    s.(tokens := map id | id in s.tokens :: Swept(s.tokens[id], now))
  }

  function Revoke(s: State, id: nat, now: int): State {
    if id in s.tokens && s.tokens[id].item.revokedAt.None? then
      s.(tokens := s.tokens[id := s.tokens[id].(item := s.tokens[id].item.(revokedAt := Some(now)))])
    else s
  }

  /** Why a token is refused, or that it is not. */
  function Judge(item: Token, scope: string, now: int): Reason {
    if item.revokedAt.Some? then RevokedToken
    else if now >= item.expiresAt then ExpiredToken
    else if TrimSpace(scope) != "" && TrimSpace(scope) !in item.scopes then ScopeNotGranted
    else if item.usedCount >= item.maxUses then Exhausted
    else Accepted
  }

  function Remaining(item: Token): nat {
    if item.maxUses > item.usedCount then item.maxUses - item.usedCount else 0
  }

  function Used(r: Record): Record {
    r.(item := r.item.(usedCount := r.item.usedCount + 1))
  }

  /** The delegation a presented token text leads to. */
  function Lookup(s: State, h: Hash, token: string): Option<nat> {
    var key := h(TrimSpace(token));
    if key in s.index && s.index[key] in s.tokens then Some(s.index[key]) else None
  }

  function Validate(s: State, h: Hash, token: string, scope: string, now: int): (State, Verdict) {
    if Blank(token) then (s, Verdict(false, TokenRequired, None, 0))
    else
      var t := Sweep(s, now);
      match Lookup(t, h, token)
      case None => (t, Verdict(false, NotRecognized, None, 0))
      case Some(id) =>
        var reason := Judge(t.tokens[id].item, scope, now);
        if reason != Accepted then (t, Verdict(false, reason, Some(id), Remaining(t.tokens[id].item)))
        else
          var used := Used(t.tokens[id]);
          (t.(tokens := t.tokens[id := used]), Verdict(true, Accepted, Some(id), Remaining(used.item)))
  }

  // ------------------------------------------------------------------- runs

  datatype Op =
    | IssueOp(request: Request, token: string, now: int)
    | RevokeOp(id: nat, now: int)
    | ValidateOp(token: string, scope: string, now: int)
    | LookOp(now: int)

  function Step(s: State, h: Hash, op: Op): State {
    match op
    case IssueOp(r, token, now) => Issue(s, h, r, token, now)
    case RevokeOp(id, now) => Revoke(s, id, now)
    case ValidateOp(token, scope, now) => Validate(s, h, token, scope, now).0
    case LookOp(now) => Sweep(s, now)
  }

  function Run(h: Hash, ops: seq<Op>): State {
    if ops == [] then INITIAL else Step(Run(h, ops[..|ops| - 1]), h, ops[|ops| - 1])
  }

  /** The step is a validation that was allowed on the delegation. */
  predicate AllowsOn(s: State, h: Hash, op: Op, id: nat) {
    op.ValidateOp? && var v := Validate(s, h, op.token, op.scope, op.now).1; v.allowed && v.id == Some(id)
  }

  /** How many validations the run allowed on the delegation. */
  function AllowedOn(h: Hash, ops: seq<Op>, id: nat): nat {
    if ops == [] then 0
    else
      var front := ops[..|ops| - 1];
      AllowedOn(h, front, id) + (if AllowsOn(Run(h, front), h, ops[|ops| - 1], id) then 1 else 0)
  }

  // -------------------------------------------------------------- invariant

  predicate TokenOk(t: Token) {
    && 0 <= t.usedCount <= t.maxUses && 1 <= t.maxUses <= 100
    && t.expiresAt == t.createdAt + t.ttl && 60 <= t.ttl <= 86400 && t.scopes != []
  }

  ghost predicate Inv(s: State) {
    && (forall id :: id in s.tokens <==> 1 <= id <= s.nextId)
    && (forall id :: id in s.tokens ==> TokenOk(s.tokens[id].item))
  }

  /** Everything about a delegation that never changes, and revocation, which is never lifted. */
  predicate Kept(a: Record, b: Record) {
    && b.hash == a.hash && b.item == a.item.(usedCount := b.item.usedCount, revokedAt := b.item.revokedAt)
    && a.item.usedCount <= b.item.usedCount
    && (a.item.revokedAt.Some? ==> b == a)
  }

  lemma StepEffect(s: State, h: Hash, op: Op, id: nat)
    requires Inv(s) && id in s.tokens
    ensures var t := Step(s, h, op);
      && id in t.tokens && Kept(s.tokens[id], t.tokens[id]) && TokenOk(t.tokens[id].item)
      && t.tokens[id].item.usedCount == s.tokens[id].item.usedCount + (if AllowsOn(s, h, op, id) then 1 else 0)
      && (s.tokens[id].item.revokedAt.Some? ==> !AllowsOn(s, h, op, id))
  {
    hide TrimSpace;
    hide SortedClean;
    hide Validate;
    if op.ValidateOp? { ValidateEffect(s, h, op, id); }
  }

  lemma ValidateEffect(s: State, h: Hash, op: Op, id: nat)
    requires Inv(s) && id in s.tokens && op.ValidateOp?
    ensures var t := Validate(s, h, op.token, op.scope, op.now).0;
      && id in t.tokens && Kept(s.tokens[id], t.tokens[id]) && TokenOk(t.tokens[id].item)
      && t.tokens[id].item.usedCount == s.tokens[id].item.usedCount + (if AllowsOn(s, h, op, id) then 1 else 0)
      && (s.tokens[id].item.revokedAt.Some? ==> !AllowsOn(s, h, op, id))
  {
    hide TrimSpace;
    hide Blank;
    hide Lookup;
    var swept := Sweep(s, op.now);
    assert TokenOk(s.tokens[id].item) && swept.tokens[id] == Swept(s.tokens[id], op.now);
  }

  lemma StepOk(s: State, h: Hash, op: Op)
    requires Inv(s)
    ensures Inv(Step(s, h, op)) && s.nextId <= Step(s, h, op).nextId
  {
    hide TrimSpace;
    hide SortedClean;
    var t := Step(s, h, op);
    forall id | id in t.tokens ensures TokenOk(t.tokens[id].item) {
      if id in s.tokens { StepEffect(s, h, op, id); }
    }
  }

  lemma {:induction false} RunOk(h: Hash, ops: seq<Op>)
    ensures Inv(Run(h, ops))
  {
    hide Step;
    if ops != [] {
      RunOk(h, ops[..|ops| - 1]);
      StepOk(Run(h, ops[..|ops| - 1]), h, ops[|ops| - 1]);
    }
  }

  /** A delegation that does not exist yet has no allowed validation behind it, and starts unused. */
  lemma NotYetIssued(s: State, h: Hash, op: Op, id: nat)
    requires Inv(s) && id !in s.tokens
    ensures !AllowsOn(s, h, op, id)
    ensures id in Step(s, h, op).tokens ==> Step(s, h, op).tokens[id].item.usedCount == 0
  {
    hide TrimSpace;
    hide SortedClean;
  }

  lemma {:induction false} UnissuedUnused(h: Hash, ops: seq<Op>, id: nat)
    requires id !in Run(h, ops).tokens
    ensures AllowedOn(h, ops, id) == 0
  {
    hide Step;
    hide AllowsOn;
    if ops != [] {
      var front, op := ops[..|ops| - 1], ops[|ops| - 1];
      RunOk(h, front);
      if id in Run(h, front).tokens { StepEffect(Run(h, front), h, op, id); }
      UnissuedUnused(h, front, id);
      NotYetIssued(Run(h, front), h, op, id);
    }
  }

  /** In every run, the allowed validations of a delegation number exactly its use count, within its maximum. */
  lemma {:induction false} UsesAreCounted(h: Hash, ops: seq<Op>, id: nat)
    requires id in Run(h, ops).tokens
    ensures AllowedOn(h, ops, id) == Run(h, ops).tokens[id].item.usedCount <= Run(h, ops).tokens[id].item.maxUses
  {
    hide Step;
    hide AllowsOn;
    RunOk(h, ops);
    if ops != [] {
      var front, op := ops[..|ops| - 1], ops[|ops| - 1];
      RunOk(h, front);
      if id in Run(h, front).tokens {
        UsesAreCounted(h, front, id);
        StepEffect(Run(h, front), h, op, id);
      } else {
        UnissuedUnused(h, front, id);
        NotYetIssued(Run(h, front), h, op, id);
      }
    }
  }

  /** The call makes the store notice that the delegation is over. */
  predicate Closes(s: State, op: Op, id: nat)
    requires id in s.tokens
  {
    || (op.RevokeOp? && op.id == id)
    || (op.LookOp? && op.now >= s.tokens[id].item.expiresAt)
    || (op.ValidateOp? && !Blank(op.token) && op.now >= s.tokens[id].item.expiresAt)
  }

  lemma ClosedIsRevoked(s: State, h: Hash, op: Op, id: nat)
    requires id in s.tokens && Closes(s, op, id)
    ensures id in Step(s, h, op).tokens && Step(s, h, op).tokens[id].item.revokedAt.Some?
    ensures !AllowsOn(s, h, op, id)
  {
    hide TrimSpace;
  }

  lemma {:induction false} RevokedForever(h: Hash, ops: seq<Op>, more: seq<Op>, id: nat)
    requires id in Run(h, ops).tokens && Run(h, ops).tokens[id].item.revokedAt.Some?
    ensures id in Run(h, ops + more).tokens && Run(h, ops + more).tokens[id] == Run(h, ops).tokens[id]
    ensures AllowedOn(h, ops + more, id) == AllowedOn(h, ops, id)
  {
    hide Step;
    hide AllowsOn;
    if more == [] {
      assert ops + more == ops;
    } else {
      var front := ops + more[..|more| - 1];
      RevokedForever(h, ops, more[..|more| - 1], id);
      assert (ops + more)[..|ops + more| - 1] == front;
      RunOk(h, front);
      StepEffect(Run(h, front), h, more[|more| - 1], id);
    }
  }

  /**
   Once a delegation is revoked, or a validate, list or get call has seen its expiry, no validation is ever
   allowed on it again, whatever times later calls carry.
   */
  lemma NeverAllowedAgain(h: Hash, ops: seq<Op>, closing: Op, more: seq<Op>, id: nat)
    requires id in Run(h, ops).tokens && Closes(Run(h, ops), closing, id)
    ensures AllowedOn(h, ops + [closing] + more, id) == AllowedOn(h, ops, id)
  {
    hide Step;
    hide AllowsOn;
    var closed := ops + [closing];
    assert closed[..|closed| - 1] == ops;
    ClosedIsRevoked(Run(h, ops), h, closing, id);
    RevokedForever(h, closed, more, id);
  }

  // -------------------------------------------------- tokens as callers see them

  /** No two tokens issued in the run share a hash. */
  ghost predicate DistinctHashes(h: Hash, ops: seq<Op>) {
    forall i, j :: 0 <= i < j < |ops| && ops[i].IssueOp? && ops[j].IssueOp? ==> h(ops[i].token) != h(ops[j].token)
  }

  ghost predicate IndexOk(s: State, h: Hash, ops: seq<Op>) {
    && (forall id :: id in s.tokens ==> s.tokens[id].hash in s.index && s.index[s.tokens[id].hash] == id)
    && (forall x :: x in s.index ==> s.index[x] in s.tokens && s.tokens[s.index[x]].hash == x)
    && (forall id :: id in s.tokens ==> IssuedIn(h, ops, s.tokens[id].hash))
  }

  ghost predicate IssuedIn(h: Hash, ops: seq<Op>, hash: string) {
    exists i :: 0 <= i < |ops| && ops[i].IssueOp? && h(ops[i].token) == hash
  }

  lemma IndexStep(s: State, h: Hash, front: seq<Op>, op: Op)
    requires Inv(s) && IndexOk(s, h, front) && DistinctHashes(h, front + [op])
    ensures IndexOk(Step(s, h, op), h, front + [op])
  {
    hide Step;
    hide IssuedIn;
    hide DistinctHashes;
    hide CheckRequest;
    hide Inv;
    var t, ops := Step(s, h, op), front + [op];
    forall id | id in s.tokens ensures IssuedIn(h, ops, s.tokens[id].hash) { IssuedLater(h, front, op, s.tokens[id].hash); }
    if op.IssueOp? && CheckRequest(op.request) == None {
      forall id | id in s.tokens ensures s.tokens[id].hash != h(op.token) { FreshHash(h, front, op, s.tokens[id].hash); }
      IssuedNow(h, front, op);
      IssueAdds(s, h, op);
    } else {
      HashesStay(s, h, op);
    }
  }

  lemma IssuedNow(h: Hash, front: seq<Op>, op: Op)
    requires op.IssueOp?
    ensures IssuedIn(h, front + [op], h(op.token))
  {
    assert (front + [op])[|front|] == op;
  }

  lemma IssuedLater(h: Hash, front: seq<Op>, op: Op, hash: string)
    requires IssuedIn(h, front, hash)
    ensures IssuedIn(h, front + [op], hash)
  {
    var i :| 0 <= i < |front| && front[i].IssueOp? && h(front[i].token) == hash;
    assert (front + [op])[i] == front[i];
  }

  lemma FreshHash(h: Hash, front: seq<Op>, op: Op, hash: string)
    requires IssuedIn(h, front, hash) && op.IssueOp? && DistinctHashes(h, front + [op])
    ensures hash != h(op.token)
  {
    var ops := front + [op];
    var i :| 0 <= i < |front| && front[i].IssueOp? && h(front[i].token) == hash;
    assert ops[i] == front[i] && ops[|front|] == op;
  }

  lemma IssueAdds(s: State, h: Hash, op: Op)
    requires Inv(s) && op.IssueOp? && CheckRequest(op.request) == None
    ensures var t, id := Step(s, h, op), s.nextId + 1;
      && id !in s.tokens && t.tokens.Keys == s.tokens.Keys + {id} && t.tokens[id].hash == h(op.token)
      && t.index == s.index[h(op.token) := id]
      && forall i :: i in s.tokens ==> t.tokens[i] == s.tokens[i]
  {
    hide CheckRequest;
    hide TrimSpace;
    hide SortedClean;
    hide Validate;
    hide Sweep;
    hide Revoke;
    assert Step(s, h, op) == Issue(s, h, op.request, op.token, op.now);
  }

  lemma HashesStay(s: State, h: Hash, op: Op)
    requires !op.IssueOp? || CheckRequest(op.request).Some?
    ensures var t := Step(s, h, op);
      && t.index == s.index && t.tokens.Keys == s.tokens.Keys
      && forall i :: i in s.tokens ==> t.tokens[i].hash == s.tokens[i].hash
  {
    hide CheckRequest;
    hide TrimSpace;
  }

  lemma {:induction false} IndexRun(h: Hash, ops: seq<Op>)
    requires DistinctHashes(h, ops)
    ensures IndexOk(Run(h, ops), h, ops)
  {
    hide Step;
    hide IndexOk;
    if ops == [] {
      assert IndexOk(INITIAL, h, []) by { IndexStart(h); }
    } else {
      var front, op := ops[..|ops| - 1], ops[|ops| - 1];
      assert ops == front + [op];
      assert forall i :: 0 <= i < |front| ==> ops[i] == front[i];
      IndexRun(h, front);
      RunOk(h, front);
      IndexStep(Run(h, front), h, front, op);
    }
  }

  lemma IndexStart(h: Hash)
    ensures IndexOk(INITIAL, h, [])
  {}

  /** How many validations presenting a text with this hash the run allowed. */
  function AllowedWith(h: Hash, ops: seq<Op>, hash: string): nat {
    if ops == [] then 0
    else
      var front, op := ops[..|ops| - 1], ops[|ops| - 1];
      AllowedWith(h, front, hash) +
      (if op.ValidateOp? && h(TrimSpace(op.token)) == hash && Validate(Run(h, front), h, op.token, op.scope, op.now).1.allowed
       then 1 else 0)
  }

  lemma SameDelegation(s: State, h: Hash, op: Op, id: nat)
    requires Inv(s) && op.ValidateOp? && id in s.tokens
    requires forall i :: i in s.tokens ==> s.tokens[i].hash in s.index && s.index[s.tokens[i].hash] == i
    requires forall x :: x in s.index ==> s.index[x] in s.tokens && s.tokens[s.index[x]].hash == x
    ensures AllowsOn(s, h, op, id) <==>
      h(TrimSpace(op.token)) == s.tokens[id].hash && Validate(s, h, op.token, op.scope, op.now).1.allowed
  {
    hide TrimSpace;
  }

  /** The next delegation's token text is recognized by nothing before it is issued. */
  lemma {:induction false} UnknownHash(h: Hash, ops: seq<Op>, hash: string)
    requires DistinctHashes(h, ops) && forall id :: id in Run(h, ops).tokens ==> Run(h, ops).tokens[id].hash != hash
    ensures AllowedWith(h, ops, hash) == 0
  {
    hide Step;
    hide Validate;
    if ops != [] {
      var front, op := ops[..|ops| - 1], ops[|ops| - 1];
      assert forall i :: 0 <= i < |front| ==> ops[i] == front[i];
      RunOk(h, front);
      var s := Run(h, front);
      forall id | id in s.tokens ensures s.tokens[id].hash != hash {
        StepEffect(s, h, op, id);
        assert Run(h, ops).tokens[id].hash == s.tokens[id].hash;
      }
      UnknownHash(h, front, hash);
      IndexRun(h, front);
      if op.ValidateOp? && h(TrimSpace(op.token)) == hash { Unrecognized(s, h, op); }
    }
  }

  lemma Unrecognized(s: State, h: Hash, op: Op)
    requires op.ValidateOp? && h(TrimSpace(op.token)) !in s.index
    ensures !Validate(s, h, op.token, op.scope, op.now).1.allowed
  {
    hide TrimSpace;
  }

  /** With distinct token hashes, the uses counted for a delegation are the uses of its token. */
  lemma {:induction false} UsesOfToken(h: Hash, ops: seq<Op>, id: nat)
    requires DistinctHashes(h, ops) && id in Run(h, ops).tokens
    ensures AllowedWith(h, ops, Run(h, ops).tokens[id].hash) == Run(h, ops).tokens[id].item.usedCount
  {
    hide Step;
    hide Validate;
    hide AllowsOn;
    if ops != [] {
      var front, op := ops[..|ops| - 1], ops[|ops| - 1];
      assert forall i :: 0 <= i < |front| ==> ops[i] == front[i];
      RunOk(h, front);
      IndexRun(h, front);
      IndexRun(h, ops);
      var s := Run(h, front);
      if id in s.tokens {
        UsesOfToken(h, front, id);
        StepEffect(s, h, op, id);
        if op.ValidateOp? { SameDelegation(s, h, op, id); } else { OnlyValidationsAllow(s, h, op, id); }
      } else {
        NewDelegation(s, h, front, op, id);
        UnknownHash(h, front, Run(h, ops).tokens[id].hash);
      }
    }
  }

  lemma OnlyValidationsAllow(s: State, h: Hash, op: Op, id: nat)
    requires !op.ValidateOp?
    ensures !AllowsOn(s, h, op, id)
  {}

  lemma NewDelegation(s: State, h: Hash, front: seq<Op>, op: Op, id: nat)
    requires Inv(s) && IndexOk(s, h, front) && DistinctHashes(h, front + [op])
    requires id !in s.tokens && id in Step(s, h, op).tokens
    ensures op.IssueOp? && Step(s, h, op).tokens[id].item.usedCount == 0
    ensures forall i :: i in s.tokens ==> s.tokens[i].hash != Step(s, h, op).tokens[id].hash
  {
    hide Step;
    if op.IssueOp? && CheckRequest(op.request) == None {
      IssueAdds(s, h, op);
      forall i | i in s.tokens ensures s.tokens[i].hash != h(op.token) { FreshHash(h, front, op, s.tokens[i].hash); }
      NotYetIssued(s, h, op, id);
    } else {
      HashesStay(s, h, op);
    }
  }

  // ------------------------------------------------------------ single calls

  /** What an allowed validation establishes, and that the expiry test after the sweep never fires. */
  lemma AllowedMeans(s: State, h: Hash, token: string, scope: string, now: int)
    requires Inv(s)
    ensures var (t, v) := Validate(s, h, token, scope, now);
      && v.reason != ExpiredToken
      && (v.allowed ==> v.id.Some? && v.id.value in s.tokens)
      && (v.allowed ==>
           var item := s.tokens[v.id.value].item;
           && item.revokedAt.None? && now < item.expiresAt && item.usedCount < item.maxUses
           && (!Blank(scope) ==> TrimSpace(scope) in item.scopes)
           && v.remaining == item.maxUses - item.usedCount - 1)
  {
    hide TrimSpace;
  }

  /**
   A delegation is issued exactly when both parties and a scope are given and the limits hold, with their defaults of
   900 seconds and one use; each field is what was handed in for it, and nothing else changes.
   */
  lemma IssueOutcome(s: State, h: Hash, r: Request, token: string, now: int)
    requires Inv(s)
    ensures var t, id := Issue(s, h, r, token, now), s.nextId + 1;
      && id !in s.tokens
      && (CheckRequest(r) == None <==>
            && !Blank(r.grantor) && !Blank(r.delegatee) && (r.ttl <= 0 || 60 <= r.ttl <= 86400) && r.maxUses <= 100
            && exists x :: x in r.scopes && !Blank(x))
      && (CheckRequest(r).Some? ==> t == s)
      && (CheckRequest(r) == None ==>
            && t.nextId == id && t.index == s.index[h(token) := id] && id in t.tokens
            && t.tokens == s.tokens[id := t.tokens[id]] && t.tokens[id].hash == h(token)
            && var item := t.tokens[id].item;
               && item.grantor == TrimSpace(r.grantor) && item.delegatee == TrimSpace(r.delegatee)
               && item.pipelineId == TrimSpace(r.pipelineId) && Ascending(item.scopes)
               && Elems(item.scopes) == (set x | x in r.scopes && Norm(x) != "" :: Norm(x))
               && item.ttl == (if r.ttl <= 0 then 900 else r.ttl) && item.maxUses == (if r.maxUses <= 0 then 1 else r.maxUses)
               && item.usedCount == 0 && item.createdAt == now && item.expiresAt == now + item.ttl && item.revokedAt == None)
  {
    hide TrimSpace, SortedClean, Ascending;
    ScopesOf(r);
  }

  lemma ScopesOf(r: Request)
    ensures Ascending(Scopes(r)) && Elems(Scopes(r)) == set x | x in r.scopes && Norm(x) != "" :: Norm(x)
    ensures Scopes(r) != [] <==> exists x :: x in r.scopes && !Blank(x)
  {
    hide TrimSpace, SortedClean, Ascending;
    SortedCleanMeaning(r.scopes, Norm);
    if x :| x in r.scopes && !Blank(x) { assert Norm(x) in Elems(Scopes(r)); }
    if Scopes(r) != [] {
      assert Scopes(r)[0] in Elems(Scopes(r));
      var x :| x in r.scopes && Norm(x) != "" && Norm(x) == Scopes(r)[0];
      assert !Blank(x);
    }
  }

  /** Revoking marks a delegation that is not revoked yet, as of now, and touches nothing else. */
  lemma RevokeOutcome(s: State, id: nat, now: int)
    ensures var t := Revoke(s, id, now);
      && t.nextId == s.nextId && t.index == s.index && t.tokens.Keys == s.tokens.Keys
      && (forall i :: i in s.tokens && i != id ==> t.tokens[i] == s.tokens[i])
      && (id in s.tokens ==>
            var was := s.tokens[id].item.revokedAt;
            t.tokens[id] == s.tokens[id].(item := s.tokens[id].item.(revokedAt := if was.Some? then was else Some(now))))
  {}

  /**
   Why a validation is refused, in order of precedence, in terms of the store before the call; and what it leaves
   behind: overdue delegations revoked as of their expiry, and one more use if it was allowed.
   */
  lemma VerdictMeans(s: State, h: Hash, token: string, scope: string, now: int)
    ensures var key, (t, v) := h(TrimSpace(token)), Validate(s, h, token, scope, now);
      var known := key in s.index && s.index[key] in s.tokens;
      && (v.allowed <==> v.reason == Accepted)
      && (v.reason == TokenRequired <==> Blank(token)) && (Blank(token) ==> t == s)
      && (v.reason == NotRecognized <==> !Blank(token) && !known)
      && (!Blank(token) && known ==>
            var id := s.index[key];
            var item := s.tokens[id].item;
            var ended := item.revokedAt.Some? || now >= item.expiresAt;
            var beyond := !Blank(scope) && TrimSpace(scope) !in item.scopes;
            && v.id == Some(id) && (v.reason == RevokedToken <==> ended)
            && (v.reason == ScopeNotGranted <==> !ended && beyond)
            && (v.reason == Exhausted <==> !ended && !beyond && item.usedCount >= item.maxUses)
            && (v.reason == Accepted <==> !ended && !beyond && item.usedCount < item.maxUses)
            && t.tokens[id].item.usedCount == item.usedCount + (if v.allowed then 1 else 0))
      && (!Blank(token) ==>
            && t.nextId == s.nextId && t.index == s.index && t.tokens.Keys == s.tokens.Keys
            && forall i :: i in s.tokens ==>
                 var a, b := s.tokens[i].item, t.tokens[i].item;
                 && t.tokens[i].hash == s.tokens[i].hash && b == a.(revokedAt := b.revokedAt, usedCount := b.usedCount)
                 && b.revokedAt == (if a.revokedAt.None? && now >= a.expiresAt then Some(a.expiresAt) else a.revokedAt)
                 && (!(known && i == s.index[key]) ==> b.usedCount == a.usedCount))
  {
    hide TrimSpace;
    if !Blank(token) { SweepOutcome(s, now); }
  }

  /** The sweep revokes exactly the delegations at or past their expiry that are not revoked yet. */
  lemma SweepOutcome(s: State, now: int)
    ensures var t := Sweep(s, now);
      && t.nextId == s.nextId && t.index == s.index && t.tokens.Keys == s.tokens.Keys
      && forall i :: i in s.tokens ==>
           var a := s.tokens[i].item;
           t.tokens[i] == s.tokens[i].(item := a.(revokedAt :=
             if a.revokedAt.None? && now >= a.expiresAt then Some(a.expiresAt) else a.revokedAt))
  {}

  /** Exactly when a validation is allowed, in terms of the store before the sweep. */
  lemma AllowedIff(s: State, h: Hash, token: string, scope: string, now: int)
    ensures Validate(s, h, token, scope, now).1.allowed <==>
      && !Blank(token) && Lookup(s, h, token).Some?
      && var item := s.tokens[Lookup(s, h, token).value].item;
         && item.revokedAt.None? && now < item.expiresAt && item.usedCount < item.maxUses
         && (Blank(scope) || TrimSpace(scope) in item.scopes)
  {
    hide TrimSpace;
  }

  /** A token just issued is good for any granted scope until its expiry, and leads to its own delegation. */
  lemma IssuedTokenWorks(s: State, h: Hash, r: Request, token: string, at: int, scope: string, now: int)
    requires CheckRequest(r) == None && Trimmed(token) && token != ""
    ensures var t := Issue(s, h, r, token, at);
      var v := Validate(t, h, token, scope, now).1;
      && 60 <= Ttl(r) <= 86400 && 1 <= MaxUses(r) <= 100
      && (v.allowed <==> now < at + Ttl(r) && (Blank(scope) || TrimSpace(scope) in Scopes(r)))
      && (v.allowed ==> v.id == Some(s.nextId + 1) && v.remaining == MaxUses(r) - 1)
  {
    hide TrimSpace;
    hide SortedClean;
    var t := Issue(s, h, r, token, at);
    assert Lookup(t, h, token) == Some(s.nextId + 1);
    AllowedIff(t, h, token, scope, now);
  }

  /** Granted scopes are lower-case, so a required scope with a capital letter is never granted. */
  lemma {:induction false} ScopesAreLowered(h: Hash, ops: seq<Op>, id: nat)
    requires id in Run(h, ops).tokens
    ensures forall x :: x in Run(h, ops).tokens[id].item.scopes ==> Norm(x) == x
  {
    hide Step;
    hide Norm;
    var front, op := ops[..|ops| - 1], ops[|ops| - 1];
    RunOk(h, front);
    var s := Run(h, front);
    if id in s.tokens {
      ScopesAreLowered(h, front, id);
      StepEffect(s, h, op, id);
    } else {
      NewScopes(s, h, op, id);
    }
  }

  lemma NewScopes(s: State, h: Hash, op: Op, id: nat)
    requires id !in s.tokens && id in Step(s, h, op).tokens
    ensures forall x :: x in Step(s, h, op).tokens[id].item.scopes ==> Norm(x) == x
  {
    hide TrimSpace;
    hide Norm;
    hide SortedClean;
    if op.IssueOp? { SortedCleanMeaning(op.request.scopes, Norm); }
  }

  // ------------------------------------------------------------------ store

  class DelegationTokenStore {
    const h: Hash
    var nextId: nat
    var tokens: map<nat, Record>
    var index: map<string, nat>

    function Snapshot(): State
      reads this
    {
      State(nextId, tokens, index)
    }

    constructor (h: Hash)
      ensures Snapshot() == INITIAL && this.h == h
    {
      this.h := h;
      nextId, tokens, index := 0, map[], map[];
    }

    method IssueToken(r: Request, token: string, now: int) returns (error: Option<IssueError>)
      modifies this
      ensures error == CheckRequest(r)
      ensures Snapshot() == Issue(old(Snapshot()), h, r, token, now)
    {
      hide TrimSpace;
      hide SortedClean;
      var grantor, delegatee := TrimSpace(r.grantor), TrimSpace(r.delegatee);
      if grantor == "" || delegatee == "" { return Some(PartiesRequired); }
      var ttl := r.ttl;
      if ttl <= 0 { ttl := 900; }
      if ttl < 60 { return Some(TtlTooShort); }
      if ttl > 86400 { return Some(TtlTooLong); }
      var maxUses := r.maxUses;
      if maxUses <= 0 { maxUses := 1; }
      if maxUses > 100 { return Some(TooManyUses); }
      var scopes := SortedCleanLoop(r.scopes, Norm);
      if |scopes| == 0 { return Some(ScopeRequired); }
      nextId := nextId + 1;
      var item := Token(grantor, delegatee, TrimSpace(r.pipelineId), scopes, ttl, maxUses, 0, now, now + ttl, None);
      tokens := tokens[nextId := Record(item, h(token))];
      index := index[h(token) := nextId];
      return None;
    }

    method SweepExpired(now: int)
      modifies this`tokens
      ensures Snapshot() == Sweep(old(Snapshot()), now)
    {
      var rest := tokens.Keys;
      while rest != {}
        invariant rest <= tokens.Keys == old(tokens).Keys
        invariant forall id :: id in tokens ==>
          tokens[id] == if id in rest then old(tokens)[id] else Swept(old(tokens)[id], now)
      {
        var id :| id in rest;
        rest := rest - {id};
        var r := tokens[id];
        if r.item.revokedAt.None? && now >= r.item.expiresAt {
          tokens := tokens[id := r.(item := r.item.(revokedAt := Some(r.item.expiresAt)))];
        }
      }
    }

    method RevokeToken(id: nat, now: int) returns (found: bool)
      modifies this`tokens
      ensures found == (id in old(tokens))
      ensures Snapshot() == Revoke(old(Snapshot()), id, now)
    {
      if id !in tokens { return false; }
      var r := tokens[id];
      if r.item.revokedAt.None? { tokens := tokens[id := r.(item := r.item.(revokedAt := Some(now)))]; }
      return true;
    }

    method ValidateAt(rawToken: string, rawScope: string, now: int) returns (v: Verdict)
      modifies this
      ensures (Snapshot(), v) == Validate(old(Snapshot()), h, rawToken, rawScope, now)
    {
      hide TrimSpace;
      var token, scope := TrimSpace(rawToken), TrimSpace(rawScope);
      if token == "" { return Verdict(false, TokenRequired, None, 0); }
      var key := h(token);
      SweepExpired(now);
      if key !in index || index[key] !in tokens { return Verdict(false, NotRecognized, None, 0); }
      var id := index[key];
      var r := tokens[id];
      var left := Remaining(r.item);
      if r.item.revokedAt.Some? { return Verdict(false, RevokedToken, Some(id), left); }
      if now >= r.item.expiresAt { return Verdict(false, ExpiredToken, Some(id), left); }
      if scope != "" && scope !in r.item.scopes { return Verdict(false, ScopeNotGranted, Some(id), left); }
      if r.item.usedCount >= r.item.maxUses { return Verdict(false, Exhausted, Some(id), left); }
      r := r.(item := r.item.(usedCount := r.item.usedCount + 1));
      tokens := tokens[id := r];
      return Verdict(true, Accepted, Some(id), Remaining(r.item));
    }
  }
}
