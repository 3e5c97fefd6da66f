/** What deciding and revoking come to: single steps written out, and what a whole run makes of requests and grants. */
module Decisions {
  import opened Options
  import opened ControlPlane

  // ---------- single steps ----------

  /** A new request is pending, under an id not used before; nothing else changes. */
  lemma CreationTells(s: State, input: CreateInput, now: Time)
    requires Inv(s)
    ensures var (t, r) := Create(s, input, now);
      && r.requestId !in s.requests && t == s.(requests := s.requests[r.requestId := r])
      && r.status == Pending && r.createdAt == now && r.updatedAt == now
      && r.subjectId == input.subjectId && r.requesterId == input.requesterId && r.datasetId == input.datasetId
      && r.purpose == input.purpose && r.requestedScope == input.requestedScope
  {
    NextIdIsFresh("ar_", |s.requests|);
  }

  /** A decision is taken exactly on a known request, for its subject if one is named. It sets the request's status; a
      denial leaves the grants alone, and an approval adds one active grant, under a new id, for what was asked. */
  lemma DecisionTells(s: State, input: DecideInput, updatedAt: Time, grantedAt: Time)
    requires Inv(s)
    ensures var (t, r) := Decide(s, input, updatedAt, grantedAt);
      var k := input.requestId;
      && (r.Ok? <==> k in s.requests && (input.subjectId.Some? ==> input.subjectId.value == s.requests[k].subjectId))
      && (r.Err? ==> t == s && r.error == if k in s.requests then SubjectMismatch(k) else RequestNotFound(k))
      && (r.Ok? ==>
            && t.requests.Keys == s.requests.Keys
            && (forall q | q in s.requests && q != k :: t.requests[q] == s.requests[q])
            && r.value.request == t.requests[k] && r.value.approve == input.approve
            && t.requests[k].status == (if input.approve then Approved else Denied)
            && t.requests[k].updatedAt == updatedAt
            && t.requests[k] == s.requests[k].(status := t.requests[k].status, updatedAt := t.requests[k].updatedAt)
            && t.evidence == s.evidence && t.cache == s.cache && t.sequence == s.sequence)
      && (r.Ok? && !input.approve ==> t.grants == s.grants && r.value.grant == None)
      && (r.Ok? && input.approve ==>
            && r.value.grant.Some?
            && var g := r.value.grant.value;
            && g.grantId !in s.grants && t.grants == s.grants[g.grantId := g]
            && !g.revoked && g.revokedAt == None && g.grantedAt == grantedAt && g.requestId == k
            && g.subjectId == s.requests[k].subjectId && g.requesterId == s.requests[k].requesterId
            && g.datasetId == s.requests[k].datasetId && g.scope == s.requests[k].requestedScope)
  {
    if input.requestId in s.requests {
      assert s.requests[input.requestId].requestId == input.requestId;
    }
    NextIdIsFresh("ga_", |s.grants|);
  }

  /** The reason given, or else the name of the decision. */
  lemma ReasonTells(s: State, input: DecideInput, updatedAt: Time, grantedAt: Time)
    requires Decide(s, input, updatedAt, grantedAt).1.Ok?
    ensures var code := Decide(s, input, updatedAt, grantedAt).1.value.reasonCode;
      code == if input.reason.Some? then input.reason.value else if input.approve then "APPROVED" else "DENIED"
  {
  }

  /** A request not answered before revokes exactly a known grant, for its subject if one is named. */
  ghost predicate Revocable(s: State, input: RevokeInput) {
    && input.grantId in s.grants
    && (input.subjectId.Some? ==> input.subjectId.value == s.grants[input.grantId].subjectId)
  }

  ghost predicate NewKey(s: State, input: RevokeInput) {
    input.idempotencyKey.Some? ==> input.idempotencyKey.value !in s.cache
  }

  /** Under a key not used before, or none, a revocation succeeds exactly where it may, and an error changes nothing. */
  lemma RevocationTells(s: State, input: RevokeInput, requestedAt: Time, completedAt: Time)
    requires NewKey(s, input)
    ensures var (t, r) := Revoke(s, input, requestedAt, completedAt);
      && (r.Ok? <==> Revocable(s, input))
      && (r.Err? ==>
            t == s && r.error == if input.grantId in s.grants then SubjectMismatch(input.grantId)
                                 else GrantNotFound(input.grantId))
      && t.requests == s.requests
  {
  }

  /** Revoking a grant that is revoked answers with it and leaves grants and evidence alone. */
  lemma RepeatTells(s: State, input: RevokeInput, requestedAt: Time, completedAt: Time)
    requires NewKey(s, input) && Revocable(s, input) && s.grants[input.grantId].revoked
    ensures var (t, r) := Revoke(s, input, requestedAt, completedAt);
      && t.grants == s.grants && t.evidence == s.evidence
      && r.Ok? && r.value.grant == s.grants[input.grantId] && r.value.idempotentReplay
  {
  }

  /** Revoking an active grant changes that grant, to revoked at that time for that reason, and adds one record. */
  lemma FreshTells(s: State, input: RevokeInput, requestedAt: Time, completedAt: Time)
    requires NewKey(s, input) && Revocable(s, input) && !s.grants[input.grantId].revoked
    requires s.grants[input.grantId].grantId == input.grantId
    ensures var (t, r) := Revoke(s, input, requestedAt, completedAt);
      var k := input.grantId;
      && t.grants.Keys == s.grants.Keys && (forall q | q in s.grants && q != k :: t.grants[q] == s.grants[q])
      && r.Ok? && r.value.grant == t.grants[k] && !r.value.idempotentReplay && r.value.completedAt == completedAt
      && t.grants[k].revoked && t.grants[k].revokedAt == Some(completedAt)
      && t.grants[k].revocationReason ==
           Some(if input.reason.Some? then input.reason.value else "MANUAL_REVOCATION")
      && t.grants[k] == s.grants[k].(
           revoked := true, revokedAt := t.grants[k].revokedAt, revocationId := t.grants[k].revocationId,
           revocationReason := t.grants[k].revocationReason)
      && |t.evidence| == |s.evidence| + 1 && s.evidence <= t.evidence
      && t.evidence[|s.evidence|].requestedAt == requestedAt
      && t.evidence[|s.evidence|].idempotencyKey == input.idempotencyKey
  {
  }

  /** What a first success leaves in the cache. */
  lemma FirstIsCached(s: State, first: RevokeInput, at: Time, done: Time)
    requires Inv(s) && NewKey(s, first) && Revocable(s, first) && first.idempotencyKey.Some?
    ensures var (t, r) := Revoke(s, first, at, done);
      && r.Ok? && first.idempotencyKey.value in t.cache
      && t.cache[first.idempotencyKey.value] == Cached(
           Fingerprint(first.grantId, first.reason, first.subjectId, first.requesterId), r.value)
  {
  }

  lemma HitTells(u: State, c: Cached, input: RevokeInput, requestedAt: Time, completedAt: Time)
    requires input.idempotencyKey.Some? && input.idempotencyKey.value in u.cache
    requires u.cache[input.idempotencyKey.value] == c
    ensures var (t, r) := Revoke(u, input, requestedAt, completedAt);
      && t == u
      && (r.Ok? <==>
            && input.grantId == c.fingerprint.grantId && input.reason == c.fingerprint.reason
            && input.subjectId == c.fingerprint.subjectId && input.requesterId == c.fingerprint.requesterId)
      && (r.Err? ==> r.error == IdempotencyConflict(input.idempotencyKey.value))
      && (r.Ok? ==> r.value == c.result.(idempotentReplay := true))
  {
  }

  /** Under a key used before a revocation succeeds exactly when it asks for what was asked then; otherwise it is a
      conflict. Either way nothing changes. */
  lemma KeyTells(
    s: State, first: RevokeInput, at: Time, done: Time, between: seq<Op>, input: RevokeInput, requestedAt: Time,
    completedAt: Time)
    requires Inv(s) && NewKey(s, first) && Revocable(s, first) && first.idempotencyKey.Some?
    requires input.idempotencyKey == first.idempotencyKey
    ensures var u := Run(Revoke(s, first, at, done).0, between);
      var (t, r) := Revoke(u, input, requestedAt, completedAt);
      && t == u
      && (r.Ok? <==>
            && input.grantId == first.grantId && input.reason == first.reason
            && input.subjectId == first.subjectId && input.requesterId == first.requesterId)
      && (r.Err? ==> r.error == IdempotencyConflict(first.idempotencyKey.value))
      && (r.Ok? ==>
            && Revoke(s, first, at, done).1.Ok?
            && r.value == Revoke(s, first, at, done).1.value.(idempotentReplay := true))
  {
    FirstIsCached(s, first, at, done);
    RevokeKeepsInv(s, first, at, done);
    var s1 := Revoke(s, first, at, done).0;
    RunKeepsInv(s1, between);
    HitTells(Run(s1, between), s1.cache[first.idempotencyKey.value], input, requestedAt, completedAt);
  }

  // ---------- what a run makes of a request ----------

  predicate Decides(s: State, op: Op, k: string) {
    op.DoDecide? && op.decide.requestId == k && Decide(s, op.decide, op.updatedAt, op.grantedAt).1.Ok?
  }

  /** The last successful decision on a request: whether it approves. */
  ghost function LastDecision(s: State, ops: seq<Op>, k: string): Option<bool>
    decreases |ops|
  {
    if ops == [] then None
    else
      var later := LastDecision(Apply(s, ops[0]), ops[1..], k);
      if later.Some? then later else if Decides(s, ops[0], k) then Some(ops[0].decide.approve) else None
  }

  function StatusOf(decision: Option<bool>): RequestStatus {
    match decision
    case None => Pending
    case Some(approve) => if approve then Approved else Denied
  }

  /** The status of a request after one operation. */
  ghost function NextStatus(s: State, op: Op, k: string): RequestStatus {
    if Decides(s, op, k) then StatusOf(Some(op.decide.approve))
    else if k in s.requests then s.requests[k].status
    else Pending
  }

  lemma DecideStatus(s: State, op: Op, k: string)
    requires op.DoDecide? && forall q | q in s.requests :: s.requests[q].requestId == q
    ensures Apply(s, op).requests.Keys == s.requests.Keys
    ensures k in s.requests ==> Apply(s, op).requests[k].status == NextStatus(s, op, k)
  {
  }

  lemma StepStatus(s: State, op: Op, k: string)
    requires Inv(s)
    ensures k in s.requests ==> k in Apply(s, op).requests
    ensures k in Apply(s, op).requests ==> Apply(s, op).requests[k].status == NextStatus(s, op, k)
  {
    match op
    case DoCreate(input, now) => CreationTells(s, input, now);
    case DoDecide(_, _, _) => DecideStatus(s, op, k);
    case DoRevoke(input, requestedAt, completedAt) => RevokeOnlyRevokes(s, input, requestedAt, completedAt);
  }

  lemma DecidedIsKnown(s: State, op: Op, k: string)
    requires Decides(s, op, k)
    ensures k in s.requests
  {
  }

  lemma {:induction false} RunStatus(s: State, ops: seq<Op>, k: string)
    requires Inv(s) && k in Run(s, ops).requests
    ensures Run(s, ops).requests[k].status ==
      if LastDecision(s, ops, k).Some? then StatusOf(LastDecision(s, ops, k))
      else if k in s.requests then s.requests[k].status
      else Pending
    decreases |ops|
  {
    if ops != [] {
      ApplyKeepsInv(s, ops[0]);
      RunStatus(Apply(s, ops[0]), ops[1..], k);
      StepStatus(s, ops[0], k);
      if Decides(s, ops[0], k) {
        DecidedIsKnown(s, ops[0], k);
      }
    }
  }

  /** In every reachable state a request has the status of the last decision taken on it, and is pending without one. */
  lemma StatusIsLastDecision(ops: seq<Op>, k: string)
    requires k in Run(Empty(), ops).requests
    ensures Run(Empty(), ops).requests[k].status == StatusOf(LastDecision(Empty(), ops, k))
  {
    assert Inv(Empty());
    RunStatus(Empty(), ops, k);
  }

  // ---------- what a run makes of grants ----------

  predicate Approves(s: State, op: Op, k: string) {
    Decides(s, op, k) && op.decide.approve
  }

  /** The successful approvals of a request along a run. */
  ghost function Approvals(s: State, ops: seq<Op>, k: string): nat
    decreases |ops|
  {
    if ops == [] then 0
    else Approvals(Apply(s, ops[0]), ops[1..], k) + if Approves(s, ops[0], k) then 1 else 0
  }

  /** The ids of the grants made for a request. */
  ghost function GrantsFor(grants: map<string, Grant>, k: string): set<string> {
    set g | g in grants && grants[g].requestId == k
  }

  lemma DecideGrants(s: State, op: Op, k: string)
    requires op.DoDecide? && GrantId(|s.grants| + 1) !in s.grants
    requires forall q | q in s.requests :: s.requests[q].requestId == q
    ensures |GrantsFor(Apply(s, op).grants, k)| == |GrantsFor(s.grants, k)| + if Approves(s, op, k) then 1 else 0
  {
    var before, after := GrantsFor(s.grants, k), GrantsFor(Apply(s, op).grants, k);
    var r := Decide(s, op.decide, op.updatedAt, op.grantedAt).1;
    if r.Ok? && op.decide.approve {
      assert after == if op.decide.requestId == k then before + {GrantId(|s.grants| + 1)} else before;
    } else {
      assert after == before;
    }
  }

  lemma StepGrants(s: State, op: Op, k: string)
    requires Inv(s)
    ensures |GrantsFor(Apply(s, op).grants, k)| == |GrantsFor(s.grants, k)| + if Approves(s, op, k) then 1 else 0
  {
    NextIdIsFresh("ga_", |s.grants|);
    match op
    case DoCreate(_, _) =>
    case DoDecide(_, _, _) => DecideGrants(s, op, k);
    case DoRevoke(input, requestedAt, completedAt) =>
      RevokeOnlyRevokes(s, input, requestedAt, completedAt);
      assert GrantsFor(Apply(s, op).grants, k) == GrantsFor(s.grants, k);
  }

  /** What one revocation does to the grants. */
  ghost predicate OnlyRevokes(s: State, input: RevokeInput, outcome: (State, Result<RevokeResult, Error>)) {
    var (t, r) := outcome;
    && t.requests == s.requests && t.grants.Keys == s.grants.Keys
    && forall g | g in s.grants ::
         && t.grants[g].requestId == s.grants[g].requestId
         && (t.grants[g].revoked <==> s.grants[g].revoked || (g == input.grantId && r.Ok?))
  }

  lemma UncachedOnlyRevokes(s: State, input: RevokeInput, requestedAt: Time, completedAt: Time)
    requires forall g | g in s.grants :: s.grants[g].grantId == g
    ensures OnlyRevokes(s, input, RevokeUncached(s, input, requestedAt, completedAt))
  {
  }

  lemma CachedIsRevoked(s: State, input: RevokeInput)
    requires Inv(s) && CacheHit(s, input)
    requires s.cache[input.idempotencyKey.value].fingerprint == FingerprintOf(input)
    ensures input.grantId in s.grants && s.grants[input.grantId].revoked
  {
    var c := s.cache[input.idempotencyKey.value];
    assert AnswerOk(c.fingerprint, c.result, s.grants, s.evidence);
  }

  lemma RevokeOnlyRevokes(s: State, input: RevokeInput, requestedAt: Time, completedAt: Time)
    requires Inv(s)
    ensures OnlyRevokes(s, input, Revoke(s, input, requestedAt, completedAt))
  {
    if CacheHit(s, input) {
      if s.cache[input.idempotencyKey.value].fingerprint == FingerprintOf(input) {
        CachedIsRevoked(s, input);
      }
    } else {
      forall g | g in s.grants ensures s.grants[g].grantId == g {
        assert GrantOk(s.grants[g], g);
      }
      UncachedOnlyRevokes(s, input, requestedAt, completedAt);
    }
  }

  lemma {:induction false} RunGrants(s: State, ops: seq<Op>, k: string)
    requires Inv(s)
    ensures |GrantsFor(Run(s, ops).grants, k)| == |GrantsFor(s.grants, k)| + Approvals(s, ops, k)
    decreases |ops|
  {
    if ops != [] {
      ApplyKeepsInv(s, ops[0]);
      StepGrants(s, ops[0], k);
      RunGrants(Apply(s, ops[0]), ops[1..], k);
    }
  }

  /** In every reachable state a request has as many grants as it was approved times: none without an approval, and
      every grant's request was approved. */
  lemma GrantsAreApprovals(ops: seq<Op>, k: string)
    ensures |GrantsFor(Run(Empty(), ops).grants, k)| == Approvals(Empty(), ops, k)
    ensures (exists g :: g in Run(Empty(), ops).grants && Run(Empty(), ops).grants[g].requestId == k)
       <==> Approvals(Empty(), ops, k) > 0
  {
    assert Inv(Empty());
    RunGrants(Empty(), ops, k);
    assert GrantsFor(Empty().grants, k) == {};
    var made := GrantsFor(Run(Empty(), ops).grants, k);
    if g :| g in Run(Empty(), ops).grants && Run(Empty(), ops).grants[g].requestId == k {
      assert g in made;
    }
    if |made| > 0 {
      var g :| g in made;
    }
  }

  ghost predicate HasActiveGrant(s: State, k: string) {
    exists g :: g in s.grants && s.grants[g].requestId == k && !s.grants[g].revoked
  }

  /** A denial takes no grant back: a request denied after it was approved has an active grant exactly if it had one
      before the denial, and the grant just made is one. */
  lemma DeniedStillGranted(s: State, approve: DecideInput, deny: DecideInput, at: Time, granted: Time, at2: Time)
    requires Inv(s) && approve.approve && !deny.approve && deny == approve.(approve := false)
    requires Decide(s, approve, at, granted).1.Ok?
    ensures var t := Run(s, [DoDecide(approve, at, granted), DoDecide(deny, at2, granted)]);
      && approve.requestId in t.requests && t.requests[approve.requestId].status == Denied
      && HasActiveGrant(t, approve.requestId)
  {
    ApprovedHasGrant(s, approve, at, granted);
    DecideKeepsInv(s, approve, at, granted);
    var s1 := Decide(s, approve, at, granted).0;
    DenialKeepsGrants(s1, deny, at2, granted);
    RunOfTwo(s, DoDecide(approve, at, granted), DoDecide(deny, at2, granted));
  }

  lemma RunOfTwo(s: State, a: Op, b: Op)
    ensures Run(s, [a, b]) == Apply(Apply(s, a), b)
  {
    assert [a, b][1..] == [b] && [b][1..] == [];
    assert Run(Apply(s, a), [b]) == Run(Apply(Apply(s, a), b), []);
  }

  lemma ApprovedHasGrant(s: State, approve: DecideInput, at: Time, granted: Time)
    requires Inv(s) && approve.approve && Decide(s, approve, at, granted).1.Ok?
    ensures var t := Decide(s, approve, at, granted).0;
      && approve.requestId in t.requests && HasActiveGrant(t, approve.requestId)
      && t.requests[approve.requestId].subjectId == s.requests[approve.requestId].subjectId
      && (approve.subjectId.Some? ==> approve.subjectId.value == t.requests[approve.requestId].subjectId)
  {
    DecisionTells(s, approve, at, granted);
    var (t, r) := Decide(s, approve, at, granted);
    assert t.grants[r.value.grant.value.grantId] == r.value.grant.value;
  }

  lemma DenialKeepsGrants(s: State, deny: DecideInput, at: Time, granted: Time)
    requires Inv(s) && !deny.approve && deny.requestId in s.requests && HasActiveGrant(s, deny.requestId)
    requires deny.subjectId.Some? ==> deny.subjectId.value == s.requests[deny.requestId].subjectId
    ensures var t := Decide(s, deny, at, granted).0;
      && deny.requestId in t.requests && t.requests[deny.requestId].status == Denied
      && HasActiveGrant(t, deny.requestId)
  {
    DecisionTells(s, deny, at, granted);
  }

  /** All successful approvals along a run. */
  ghost function AllApprovals(s: State, ops: seq<Op>): nat
    decreases |ops|
  {
    if ops == [] then 0
    else
      AllApprovals(Apply(s, ops[0]), ops[1..])
      + if ops[0].DoDecide? && Approves(s, ops[0], ops[0].decide.requestId) then 1 else 0
  }

  lemma StepCounts(s: State, op: Op)
    requires Inv(s)
    ensures |Apply(s, op).grants| ==
      |s.grants| + if op.DoDecide? && Approves(s, op, op.decide.requestId) then 1 else 0
  {
    match op
    case DoCreate(input, now) => CreationTells(s, input, now);
    case DoDecide(input, updatedAt, grantedAt) =>
      DecisionTells(s, input, updatedAt, grantedAt);
      var r := Decide(s, input, updatedAt, grantedAt).1;
      if r.Ok? && input.approve {
        AddedKey(s.grants, r.value.grant.value.grantId, r.value.grant.value);
      }
    case DoRevoke(input, requestedAt, completedAt) =>
      RevokeOnlyRevokes(s, input, requestedAt, completedAt);
      assert |Apply(s, op).grants| == |Apply(s, op).grants.Keys| == |s.grants.Keys| == |s.grants|;
  }

  /** The grants of a run are as many as its successful approvals. */
  lemma {:induction false} GrantCount(s: State, ops: seq<Op>)
    requires Inv(s)
    ensures |Run(s, ops).grants| == |s.grants| + AllApprovals(s, ops)
    decreases |ops|
  {
    if ops != [] {
      ApplyKeepsInv(s, ops[0]);
      StepCounts(s, ops[0]);
      GrantCount(Apply(s, ops[0]), ops[1..]);
    }
  }

  // ---------- what a run revokes ----------

  predicate Revokes(s: State, op: Op, k: string) {
    op.DoRevoke? && op.revoke.grantId == k && Revoke(s, op.revoke, op.requestedAt, op.completedAt).1.Ok?
  }

  /** A successful revocation of the grant along a run. */
  ghost predicate RevokedIn(s: State, ops: seq<Op>, k: string)
    decreases |ops|
  {
    ops != [] && (Revokes(s, ops[0], k) || RevokedIn(Apply(s, ops[0]), ops[1..], k))
  }

  lemma DecideRevokes(s: State, op: Op, k: string)
    requires !op.DoRevoke? && GrantId(|s.grants| + 1) !in s.grants && k in Apply(s, op).grants
    ensures Apply(s, op).grants[k].revoked <==> k in s.grants && s.grants[k].revoked
  {
  }

  lemma StepRevokes(s: State, op: Op, k: string)
    requires Inv(s) && k in Apply(s, op).grants
    ensures Apply(s, op).grants[k].revoked <==> (k in s.grants && s.grants[k].revoked) || Revokes(s, op, k)
  {
    if op.DoRevoke? {
      RevokeOnlyRevokes(s, op.revoke, op.requestedAt, op.completedAt);
      SucceededIsKnown(s, op.revoke, op.requestedAt, op.completedAt);
    } else {
      NextIdIsFresh("ga_", |s.grants|);
      DecideRevokes(s, op, k);
    }
  }

  lemma SucceededIsKnown(s: State, input: RevokeInput, requestedAt: Time, completedAt: Time)
    requires Inv(s)
    ensures Revoke(s, input, requestedAt, completedAt).1.Ok? ==> input.grantId in s.grants
  {
    if CacheHit(s, input) && s.cache[input.idempotencyKey.value].fingerprint == FingerprintOf(input) {
      CachedIsRevoked(s, input);
    }
  }

  lemma KeptRevoked(s: State, ops: seq<Op>, k: string)
    requires Inv(s) && k in s.grants && s.grants[k].revoked
    ensures k in Run(s, ops).grants && Run(s, ops).grants[k].revoked
  {
    RunKeepsInv(s, ops);
  }

  lemma {:induction false} RevokedIsKnown(s: State, ops: seq<Op>, k: string)
    requires Inv(s) && RevokedIn(s, ops, k)
    ensures k in Run(s, ops).grants && Run(s, ops).grants[k].revoked
    decreases |ops|
  {
    ApplyKeepsInv(s, ops[0]);
    if Revokes(s, ops[0], k) {
      SucceededIsKnown(s, ops[0].revoke, ops[0].requestedAt, ops[0].completedAt);
      RevokeOnlyRevokes(s, ops[0].revoke, ops[0].requestedAt, ops[0].completedAt);
      KeptRevoked(Apply(s, ops[0]), ops[1..], k);
    } else {
      RevokedIsKnown(Apply(s, ops[0]), ops[1..], k);
    }
  }

  lemma {:induction false} RunRevokes(s: State, ops: seq<Op>, k: string)
    requires Inv(s) && k in Run(s, ops).grants
    ensures Run(s, ops).grants[k].revoked <==> (k in s.grants && s.grants[k].revoked) || RevokedIn(s, ops, k)
    decreases |ops|
  {
    if ops != [] {
      ApplyKeepsInv(s, ops[0]);
      RunRevokes(Apply(s, ops[0]), ops[1..], k);
      if k in Apply(s, ops[0]).grants {
        StepRevokes(s, ops[0], k);
      }
      if Revokes(s, ops[0], k) {
        RevokedIsKnown(s, ops, k);
      }
    }
  }

  /** In every reachable state a grant is revoked exactly when some revocation of it succeeded. */
  lemma RevokedIff(ops: seq<Op>, k: string)
    requires k in Run(Empty(), ops).grants
    ensures Run(Empty(), ops).grants[k].revoked <==> RevokedIn(Empty(), ops, k)
  {
    assert Inv(Empty());
    RunRevokes(Empty(), ops, k);
  }
}
