/** The revocation control plane: requests, grants, revocation evidence and the idempotency cache. */
module ControlPlane {
  import opened Options
  import Text

  type Time = int

  datatype RequestStatus = Pending | Approved | Denied

  datatype AccessRequest = AccessRequest(
    requestId: string, subjectId: string, requesterId: string, datasetId: string, purpose: string,
    requestedScope: seq<string>, status: RequestStatus, createdAt: Time, updatedAt: Time)

  datatype Grant = Grant(
    grantId: string, requestId: string, subjectId: string, requesterId: string, datasetId: string,
    scope: seq<string>, grantedAt: Time, revoked: bool, revokedAt: Option<Time>,
    revocationId: Option<string>, revocationReason: Option<string>)

  datatype Evidence = Evidence(
    evidenceRecordId: string, revocationId: string, grantId: string, subjectId: string, requesterId: string,
    reasonCode: string, idempotencyKey: Option<string>, requestedAt: Time, completedAt: Time)

  datatype RevokeInput = RevokeInput(
    grantId: string, subjectId: Option<string>, requesterId: Option<string>, reason: Option<string>,
    idempotencyKey: Option<string>)

  datatype RevokeResult = RevokeResult(
    grant: Grant, revocationId: string, idempotentReplay: bool, evidenceRecordId: string, completedAt: Time)

  /** The JSON text of four fields, told apart exactly when the fields differ. */
  datatype Fingerprint = Fingerprint(
    grantId: string, reason: Option<string>, subjectId: Option<string>, requesterId: Option<string>)

  datatype Cached = Cached(fingerprint: Fingerprint, result: RevokeResult)

  datatype Error =
    | GrantNotFound(grantId: string)
    | IdempotencyConflict(key: string)
    | RequestNotFound(requestId: string)
    | SubjectMismatch(id: string)

  datatype CreateInput = CreateInput(
    subjectId: string, requesterId: string, datasetId: string, purpose: string, requestedScope: seq<string>)

  datatype DecideInput = DecideInput(
    requestId: string, subjectId: Option<string>, approve: bool, reason: Option<string>)

  datatype Decided = Decided(request: AccessRequest, approve: bool, reasonCode: string, grant: Option<Grant>)

  datatype State = State(
    requests: map<string, AccessRequest>, grants: map<string, Grant>, evidence: seq<Evidence>,
    cache: map<string, Cached>, sequence: nat)

  function Empty(): State {
    State(map[], map[], [], map[], 0)
  }

  function Numbered(prefix: string, n: nat): string {
    prefix + Text.Decimal(n)
  }

  function GrantId(n: nat): string {
    Numbered("ga_", n)
  }

  function EvidenceId(n: nat): string {
    Numbered("evd_", n)
  }

  function RevocationId(n: nat): string {
    Numbered("rev_", n)
  }

  // ---------- the operations as functions of the state ----------

  function Create(s: State, input: CreateInput, now: Time): (State, AccessRequest) {
    var request := AccessRequest(
      Numbered("ar_", |s.requests| + 1), input.subjectId, input.requesterId, input.datasetId, input.purpose,
      input.requestedScope, Pending, now, now);
    (s.(requests := s.requests[request.requestId := request]), request)
  }

  function ReasonCode(input: DecideInput): string {
    if input.reason.Some? then input.reason.value else if input.approve then "APPROVED" else "DENIED"
  }

  function Decide(s: State, input: DecideInput, updatedAt: Time, grantedAt: Time): (State, Result<Decided, Error>) {
    if input.requestId !in s.requests then (s, Err(RequestNotFound(input.requestId)))
    else
      var request := s.requests[input.requestId];
      if input.subjectId.Some? && input.subjectId.value != request.subjectId
      then (s, Err(SubjectMismatch(input.requestId)))
      else
        var updated := request.(status := if input.approve then Approved else Denied, updatedAt := updatedAt);
        var s1 := s.(requests := s.requests[updated.requestId := updated]);
        if !input.approve then (s1, Ok(Decided(updated, false, ReasonCode(input), None)))
        else
          var grant := Grant(
            GrantId(|s.grants| + 1), updated.requestId, updated.subjectId, updated.requesterId, updated.datasetId,
            updated.requestedScope, grantedAt, false, None, None, None);
          (s1.(grants := s.grants[grant.grantId := grant]), Ok(Decided(updated, true, ReasonCode(input), Some(grant))))
  }

  function FingerprintOf(input: RevokeInput): Fingerprint {
    Fingerprint(input.grantId, input.reason, input.subjectId, input.requesterId)
  }

  function FirstEvidence(evidence: seq<Evidence>, grantId: string): string {
    if evidence == [] then "unknown"
    else if evidence[0].grantId == grantId then evidence[0].evidenceRecordId
    else FirstEvidence(evidence[1..], grantId)
  }

  /** The answer for a grant already revoked. */
  function StableResult(evidence: seq<Evidence>, grant: Grant, requestedAt: Time): RevokeResult {
    RevokeResult(
      grant,
      if grant.revocationId.Some? then grant.revocationId.value else "unknown",
      true,
      FirstEvidence(evidence, grant.grantId),
      if grant.revokedAt.Some? then grant.revokedAt.value else requestedAt)
  }

  function Remember(s: State, input: RevokeInput, result: RevokeResult): State {
    if input.idempotencyKey.None? then s
    else s.(cache := s.cache[input.idempotencyKey.value := Cached(FingerprintOf(input), result)])
  }

  /** The path taken when the cache has nothing to say. */
  function RevokeUncached(s: State, input: RevokeInput, requestedAt: Time, completedAt: Time):
    (State, Result<RevokeResult, Error>)
  {
    if input.grantId !in s.grants then (s, Err(GrantNotFound(input.grantId)))
    else
      var grant := s.grants[input.grantId];
      if input.subjectId.Some? && input.subjectId.value != grant.subjectId then (s, Err(SubjectMismatch(input.grantId)))
      else if grant.revoked then
        var stable := StableResult(s.evidence, grant, requestedAt);
        (Remember(s, input, stable), Ok(stable))
      else
        var revocationId := RevocationId(s.sequence + 1);
        var reason := if input.reason.Some? then input.reason.value else "MANUAL_REVOCATION";
        var revoked := grant.(
          revoked := true, revokedAt := Some(completedAt), revocationId := Some(revocationId),
          revocationReason := Some(reason));
        var evidenceId := EvidenceId(|s.evidence| + 1);
        var record := Evidence(
          evidenceId, revocationId, grant.grantId, grant.subjectId, grant.requesterId, reason, input.idempotencyKey,
          requestedAt, completedAt);
        var result := RevokeResult(revoked, revocationId, false, evidenceId, completedAt);
        var s1 := s.(
          grants := s.grants[grant.grantId := revoked], evidence := s.evidence + [record], sequence := s.sequence + 1);
        (Remember(s1, input, result), Ok(result))
  }

  predicate CacheHit(s: State, input: RevokeInput) {
    input.idempotencyKey.Some? && input.idempotencyKey.value in s.cache
  }

  function Revoke(s: State, input: RevokeInput, requestedAt: Time, completedAt: Time):
    (State, Result<RevokeResult, Error>)
  {
    if CacheHit(s, input) then
      var cached := s.cache[input.idempotencyKey.value];
      if cached.fingerprint != FingerprintOf(input) then (s, Err(IdempotencyConflict(input.idempotencyKey.value)))
      else (s, Ok(cached.result.(idempotentReplay := true)))
    else RevokeUncached(s, input, requestedAt, completedAt)
  }

  // ---------- runs ----------

  datatype Op =
    | DoCreate(create: CreateInput, now: Time)
    | DoDecide(decide: DecideInput, updatedAt: Time, grantedAt: Time)
    | DoRevoke(revoke: RevokeInput, requestedAt: Time, completedAt: Time)

  function Apply(s: State, op: Op): State {
    match op
    case DoCreate(input, now) => Create(s, input, now).0
    case DoDecide(input, updatedAt, grantedAt) => Decide(s, input, updatedAt, grantedAt).0
    case DoRevoke(input, requestedAt, completedAt) => Revoke(s, input, requestedAt, completedAt).0
  }

  function Run(s: State, ops: seq<Op>): State
    decreases |ops|
  {
    if ops == [] then s else Run(Apply(s, ops[0]), ops[1..])
  }

  // ---------- the invariant ----------

  /** The ids handed out for the first `n` entries under one prefix. */
  ghost function Ids(prefix: string, n: nat): set<string> {
    if n == 0 then {} else Ids(prefix, n - 1) + {Numbered(prefix, n)}
  }

  lemma {:induction false} IdsMembers(prefix: string, n: nat, k: string)
    ensures k in Ids(prefix, n) <==> exists i | 1 <= i <= n :: k == Numbered(prefix, i)
  {
    if n > 0 {
      IdsMembers(prefix, n - 1, k);
      assert k == Numbered(prefix, n) ==> exists i | 1 <= i <= n :: k == Numbered(prefix, i);
    }
  }

  ghost predicate RequestsOk(requests: map<string, AccessRequest>) {
    && requests.Keys == Ids("ar_", |requests|)
    && forall k | k in requests :: requests[k].requestId == k
  }

  /** Grants are numbered without gaps, carry their own id, and have revocation fields exactly when revoked. */
  ghost predicate GrantsOk(grants: map<string, Grant>) {
    && grants.Keys == Ids("ga_", |grants|)
    && forall k | k in grants :: GrantOk(grants[k], k)
  }

  ghost predicate GrantOk(g: Grant, k: string) {
    && g.grantId == k
    && (g.revoked <==> g.revokedAt.Some?) && (g.revoked <==> g.revocationId.Some?)
    && (g.revoked <==> g.revocationReason.Some?)
  }

  /** A grant holds what its request asked for, on behalf of the parties the request named. */
  ghost predicate Follows(g: Grant, requests: map<string, AccessRequest>) {
    && g.requestId in requests
    && var r := requests[g.requestId];
    && g.subjectId == r.subjectId && g.requesterId == r.requesterId && g.datasetId == r.datasetId
    && g.scope == r.requestedScope
  }

  ghost predicate GrantsFollow(grants: map<string, Grant>, requests: map<string, AccessRequest>) {
    forall k | k in grants :: Follows(grants[k], requests)
  }

  /** The record and the revoked grant tell the same story. */
  ghost predicate Tells(e: Evidence, i: nat, grants: map<string, Grant>) {
    && e.evidenceRecordId == EvidenceId(i + 1)
    && e.revocationId == RevocationId(i + 1)
    && e.grantId in grants
    && var g := grants[e.grantId];
    && g.revoked && g.revocationId == Some(e.revocationId) && g.revokedAt == Some(e.completedAt)
    && g.revocationReason == Some(e.reasonCode) && g.subjectId == e.subjectId && g.requesterId == e.requesterId
  }

  ghost predicate HasEvidence(evidence: seq<Evidence>, k: string) {
    exists i | 0 <= i < |evidence| :: evidence[i].grantId == k
  }

  /** Evidence and revoked grants correspond one to one. */
  ghost predicate EvidenceOk(evidence: seq<Evidence>, grants: map<string, Grant>) {
    && (forall i | 0 <= i < |evidence| :: Tells(evidence[i], i, grants))
    && (forall i, j | 0 <= i < j < |evidence| :: evidence[i].grantId != evidence[j].grantId)
    && (forall k | k in grants && grants[k].revoked :: HasEvidence(evidence, k))
  }

  /** An answer for a grant that is revoked, given to a caller entitled to it. */
  ghost predicate AnswerOk(f: Fingerprint, result: RevokeResult, grants: map<string, Grant>, evidence: seq<Evidence>) {
    && f.grantId in grants
    && var g := grants[f.grantId];
    && g.revoked
    && (f.subjectId.Some? ==> f.subjectId.value == g.subjectId)
    && result.(idempotentReplay := true) == StableResult(evidence, g, 0)
  }

  ghost predicate CacheOk(cache: map<string, Cached>, grants: map<string, Grant>, evidence: seq<Evidence>) {
    forall k | k in cache :: AnswerOk(cache[k].fingerprint, cache[k].result, grants, evidence)
  }

  ghost predicate Inv(s: State) {
    && RequestsOk(s.requests) && GrantsOk(s.grants) && GrantsFollow(s.grants, s.requests)
    && EvidenceOk(s.evidence, s.grants) && s.sequence == |s.evidence|
    && CacheOk(s.cache, s.grants, s.evidence)
  }

  /** Later states keep every revoked grant as it is, and every grant's parties and scope. */
  ghost predicate GrantsKept(grants: map<string, Grant>, later: map<string, Grant>) {
    forall k | k in grants ::
      && k in later
      && (grants[k].revoked ==> later[k] == grants[k])
      && later[k].subjectId == grants[k].subjectId && later[k].scope == grants[k].scope
  }

  /** What later operations may not change: revoked grants, evidence, and remembered answers. */
  ghost predicate Preserves(s: State, t: State) {
    && GrantsKept(s.grants, t.grants)
    && s.evidence <= t.evidence
    && (forall k | k in s.cache :: k in t.cache && t.cache[k] == s.cache[k])
  }

  ghost predicate StepOk(s: State, t: State) {
    Inv(t) && Preserves(s, t)
  }

  /** A successful revocation's answer, wherever it came from. */
  ghost predicate Answered(t: State, input: RevokeInput, result: RevokeResult) {
    && AnswerOk(FingerprintOf(input), result, t.grants, t.evidence)
    && (input.idempotencyKey.Some? ==>
          CacheHit(t, input) && t.cache[input.idempotencyKey.value].fingerprint == FingerprintOf(input))
  }

  // ---------- numbering ----------

  lemma IdIndex(prefix: string, n: nat, k: string) returns (i: nat)
    requires k in Ids(prefix, n)
    ensures 1 <= i <= n && k == Numbered(prefix, i)
  {
    i := n;
    if k != Numbered(prefix, n) {
      i := IdIndex(prefix, n - 1, k);
    }
  }

  lemma NextIdIsFresh(prefix: string, n: nat)
    ensures Numbered(prefix, n + 1) !in Ids(prefix, n)
  {
    IdsMembers(prefix, n, Numbered(prefix, n + 1));
    if i: nat :| 1 <= i <= n && Numbered(prefix, n + 1) == Numbered(prefix, i) {
      Text.NumberedInjective(prefix, n + 1, i);
    }
  }

  lemma AddedKey<V>(m: map<string, V>, k: string, v: V)
    ensures m[k := v].Keys == m.Keys + {k}
    ensures |m[k := v]| == if k in m then |m| else |m| + 1
  {
    assert m[k := v].Keys == m.Keys + {k};
    assert |m[k := v]| == |m[k := v].Keys| && |m| == |m.Keys|;
  }

  // ---------- evidence look-up ----------

  lemma {:induction false} FirstEvidenceFound(evidence: seq<Evidence>, grantId: string, i: nat)
    requires i < |evidence| && evidence[i].grantId == grantId
    requires forall j | 0 <= j < i :: evidence[j].grantId != grantId
    ensures FirstEvidence(evidence, grantId) == evidence[i].evidenceRecordId
  {
    if i > 0 {
      assert evidence[1..][i - 1] == evidence[i];
      FirstEvidenceFound(evidence[1..], grantId, i - 1);
    }
  }

  /** The record found for a grant that has one stays the one found as the log grows. */
  lemma {:induction false} FirstEvidenceStays(evidence: seq<Evidence>, later: seq<Evidence>, k: string)
    requires evidence <= later && HasEvidence(evidence, k)
    ensures FirstEvidence(evidence, k) == FirstEvidence(later, k)
  {
    if evidence[0].grantId != k {
      var i :| 0 <= i < |evidence| && evidence[i].grantId == k;
      assert evidence[1..][i - 1].grantId == k;
      FirstEvidenceStays(evidence[1..], later[1..], k);
    }
  }

  lemma CacheStays(
    cache: map<string, Cached>, grants: map<string, Grant>, evidence: seq<Evidence>,
    later: map<string, Grant>, longer: seq<Evidence>)
    requires CacheOk(cache, grants, evidence) && EvidenceOk(evidence, grants) && GrantsOk(grants)
    requires GrantsKept(grants, later) && evidence <= longer
    ensures CacheOk(cache, later, longer)
  {
    forall k | k in cache ensures AnswerOk(cache[k].fingerprint, cache[k].result, later, longer) {
      var g := cache[k].fingerprint.grantId;
      assert AnswerOk(cache[k].fingerprint, cache[k].result, grants, evidence);
      assert GrantOk(grants[g], g);
      FirstEvidenceStays(evidence, longer, g);
    }
  }

  // ---------- every operation keeps the invariant ----------

  lemma PreservesTransitive(s: State, t: State, u: State)
    requires Preserves(s, t) && Preserves(t, u)
    ensures Preserves(s, u)
  {
  }

  lemma AddRequestOk(requests: map<string, AccessRequest>, grants: map<string, Grant>, r: AccessRequest)
    requires RequestsOk(requests) && GrantsFollow(grants, requests)
    requires r.requestId == Numbered("ar_", |requests| + 1)
    ensures RequestsOk(requests[r.requestId := r]) && GrantsFollow(grants, requests[r.requestId := r])
  {
    NextIdIsFresh("ar_", |requests|);
    AddedKey(requests, r.requestId, r);
    forall k | k in grants ensures Follows(grants[k], requests[r.requestId := r]) {
      assert Follows(grants[k], requests);
    }
  }

  lemma CreateKeepsInv(s: State, input: CreateInput, now: Time)
    requires Inv(s)
    ensures StepOk(s, Create(s, input, now).0)
  {
    AddRequestOk(s.requests, s.grants, Create(s, input, now).1);
  }

  lemma UpdateRequestOk(requests: map<string, AccessRequest>, grants: map<string, Grant>, k: string, r: AccessRequest)
    requires RequestsOk(requests) && GrantsFollow(grants, requests) && k in requests
    requires r == requests[k].(status := r.status, updatedAt := r.updatedAt)
    ensures RequestsOk(requests[k := r]) && GrantsFollow(grants, requests[k := r])
  {
    AddedKey(requests, k, r);
    forall g | g in grants ensures Follows(grants[g], requests[k := r]) {
      assert Follows(grants[g], requests);
    }
  }

  lemma DecideRequestOnly(s: State, k: string, r: AccessRequest)
    requires Inv(s) && k in s.requests
    requires r == s.requests[k].(status := r.status, updatedAt := r.updatedAt)
    ensures StepOk(s, s.(requests := s.requests[k := r]))
  {
    UpdateRequestOk(s.requests, s.grants, k, r);
  }

  lemma AddGrantOk(grants: map<string, Grant>, g: Grant)
    requires GrantsOk(grants) && g.grantId == GrantId(|grants| + 1) && GrantOk(g, g.grantId)
    ensures g.grantId !in grants && GrantsOk(grants[g.grantId := g]) && GrantsKept(grants, grants[g.grantId := g])
  {
    NextIdIsFresh("ga_", |grants|);
    AddedKey(grants, g.grantId, g);
  }

  lemma AddGrantEvidence(evidence: seq<Evidence>, grants: map<string, Grant>, g: Grant)
    requires EvidenceOk(evidence, grants) && g.grantId !in grants && !g.revoked
    ensures EvidenceOk(evidence, grants[g.grantId := g])
  {
    forall i | 0 <= i < |evidence| ensures Tells(evidence[i], i, grants[g.grantId := g]) {
      assert Tells(evidence[i], i, grants);
    }
  }

  lemma AddGrantKeepsInv(s: State, g: Grant)
    requires Inv(s) && g.grantId == GrantId(|s.grants| + 1) && GrantOk(g, g.grantId) && !g.revoked
    requires Follows(g, s.requests)
    ensures StepOk(s, s.(grants := s.grants[g.grantId := g]))
  {
    AddGrantOk(s.grants, g);
    AddGrantEvidence(s.evidence, s.grants, g);
    CacheStays(s.cache, s.grants, s.evidence, s.grants[g.grantId := g], s.evidence);
  }

  lemma GrantAfter(s: State, s1: State, g: Grant)
    requires StepOk(s, s1) && g.grantId == GrantId(|s1.grants| + 1) && GrantOk(g, g.grantId) && !g.revoked
    requires Follows(g, s1.requests)
    ensures StepOk(s, s1.(grants := s1.grants[g.grantId := g]))
  {
    AddGrantKeepsInv(s1, g);
    PreservesTransitive(s, s1, s1.(grants := s1.grants[g.grantId := g]));
  }

  lemma DecideKeepsInv(s: State, input: DecideInput, updatedAt: Time, grantedAt: Time)
    requires Inv(s)
    ensures StepOk(s, Decide(s, input, updatedAt, grantedAt).0)
  {
    var (t, r) := Decide(s, input, updatedAt, grantedAt);
    if r.Err? {
      assert t == s;
    } else {
      var k := input.requestId;
      var s1 := s.(requests := s.requests[k := r.value.request]);
      assert s.requests[k].requestId == k;
      DecideRequestOnly(s, k, r.value.request);
      if input.approve {
        var g := r.value.grant.value;
        assert t == s1.(grants := s1.grants[g.grantId := g]);
        GrantAfter(s, s1, g);
      } else {
        assert t == s1;
      }
    }
  }

  /** One more record, for a grant revoked by the same step. */
  lemma RecordKeepsEvidence(evidence: seq<Evidence>, grants: map<string, Grant>, e: Evidence, g: Grant)
    requires EvidenceOk(evidence, grants) && e.grantId in grants && !grants[e.grantId].revoked
    requires Tells(e, |evidence|, grants[e.grantId := g])
    ensures EvidenceOk(evidence + [e], grants[e.grantId := g])
  {
    var later, longer := grants[e.grantId := g], evidence + [e];
    forall i | 0 <= i < |longer| ensures Tells(longer[i], i, later) {
      if i < |evidence| {
        assert Tells(evidence[i], i, grants);
      }
    }
    forall i, j | 0 <= i < j < |longer| ensures longer[i].grantId != longer[j].grantId {
      assert Tells(evidence[i], i, grants);
    }
    forall k | k in later && later[k].revoked ensures HasEvidence(longer, k) {
      if k == e.grantId {
        assert longer[|evidence|].grantId == k;
      } else {
        var i :| 0 <= i < |evidence| && evidence[i].grantId == k;
        assert longer[i].grantId == k;
      }
    }
  }

  lemma RevokedGrantOk(grants: map<string, Grant>, k: string, g: Grant)
    requires GrantsOk(grants) && k in grants && !grants[k].revoked && GrantOk(g, k)
    requires g.subjectId == grants[k].subjectId && g.scope == grants[k].scope
    ensures GrantsOk(grants[k := g]) && GrantsKept(grants, grants[k := g])
  {
    AddedKey(grants, k, g);
  }

  lemma RevokedGrantFollows(grants: map<string, Grant>, requests: map<string, AccessRequest>, k: string, g: Grant)
    requires GrantsFollow(grants, requests) && k in grants
    requires g == grants[k].(revoked := true, revokedAt := g.revokedAt, revocationId := g.revocationId,
      revocationReason := g.revocationReason)
    ensures GrantsFollow(grants[k := g], requests)
  {
    assert Follows(grants[k], requests);
  }

  /** Recording the revocation of an active grant, before anything is remembered. */
  lemma RevokeKeepsRest(s: State, g: Grant, e: Evidence)
    requires Inv(s) && e.grantId in s.grants && !s.grants[e.grantId].revoked
    requires g == s.grants[e.grantId].(revoked := true, revokedAt := g.revokedAt, revocationId := g.revocationId,
      revocationReason := g.revocationReason)
    requires Tells(e, |s.evidence|, s.grants[e.grantId := g])
    ensures var t := s.(grants := s.grants[e.grantId := g], evidence := s.evidence + [e], sequence := s.sequence + 1);
      && StepOk(s, t)
      && FirstEvidence(t.evidence, e.grantId) == e.evidenceRecordId
  {
    var later, longer := s.grants[e.grantId := g], s.evidence + [e];
    assert GrantOk(s.grants[e.grantId], e.grantId);
    RevokedGrantOk(s.grants, e.grantId, g);
    RevokedGrantFollows(s.grants, s.requests, e.grantId, g);
    RecordKeepsEvidence(s.evidence, s.grants, e, g);
    CacheStays(s.cache, s.grants, s.evidence, later, longer);
    NewRecordFound(s.evidence, s.grants, e);
  }

  lemma NewRecordFound(evidence: seq<Evidence>, grants: map<string, Grant>, e: Evidence)
    requires EvidenceOk(evidence, grants) && e.grantId in grants && !grants[e.grantId].revoked
    ensures FirstEvidence(evidence + [e], e.grantId) == e.evidenceRecordId
  {
    forall j | 0 <= j < |evidence| ensures (evidence + [e])[j].grantId != e.grantId {
      assert Tells(evidence[j], j, grants);
    }
    FirstEvidenceFound(evidence + [e], e.grantId, |evidence|);
  }

  lemma CacheAdds(
    cache: map<string, Cached>, key: string, c: Cached, grants: map<string, Grant>, evidence: seq<Evidence>)
    requires CacheOk(cache, grants, evidence) && AnswerOk(c.fingerprint, c.result, grants, evidence)
    ensures CacheOk(cache[key := c], grants, evidence)
  {
  }

  lemma CacheOnly(s: State, cache: map<string, Cached>)
    requires Inv(s) && CacheOk(cache, s.grants, s.evidence)
    requires forall k | k in s.cache :: k in cache && cache[k] == s.cache[k]
    ensures StepOk(s, s.(cache := cache))
  {
  }

  /** Remembering an answer under an unused key keeps the cache sound. */
  lemma RememberKeepsInv(s: State, input: RevokeInput, result: RevokeResult)
    requires Inv(s) && !CacheHit(s, input) && AnswerOk(FingerprintOf(input), result, s.grants, s.evidence)
    ensures StepOk(s, Remember(s, input, result)) && Answered(Remember(s, input, result), input, result)
  {
    if input.idempotencyKey.Some? {
      var c := Cached(FingerprintOf(input), result);
      CacheAdds(s.cache, input.idempotencyKey.value, c, s.grants, s.evidence);
      CacheOnly(s, s.cache[input.idempotencyKey.value := c]);
    }
  }

  /** The state once a revoked grant and its record are stored. */
  function Recorded(s: State, g: Grant, e: Evidence): State {
    s.(grants := s.grants[e.grantId := g], evidence := s.evidence + [e], sequence := s.sequence + 1)
  }

  /** The answer for a grant revoked just now. */
  function FreshResult(g: Grant, e: Evidence): RevokeResult {
    RevokeResult(g, e.revocationId, false, e.evidenceRecordId, e.completedAt)
  }

  lemma FreshAnswerOk(s: State, input: RevokeInput, g: Grant, e: Evidence)
    requires e.grantId == g.grantId == input.grantId && g.revoked
    requires g.revocationId == Some(e.revocationId) && g.revokedAt == Some(e.completedAt)
    requires input.subjectId.Some? ==> input.subjectId.value == g.subjectId
    requires FirstEvidence(Recorded(s, g, e).evidence, e.grantId) == e.evidenceRecordId
    ensures AnswerOk(FingerprintOf(input), FreshResult(g, e), Recorded(s, g, e).grants, Recorded(s, g, e).evidence)
  {
  }

  lemma RecordedKeepsInv(s: State, input: RevokeInput, g: Grant, e: Evidence)
    requires Inv(s) && !CacheHit(s, input) && e.grantId in s.grants && !s.grants[e.grantId].revoked
    requires g == s.grants[e.grantId].(revoked := true, revokedAt := g.revokedAt, revocationId := g.revocationId,
      revocationReason := g.revocationReason)
    requires Tells(e, |s.evidence|, s.grants[e.grantId := g])
    requires e.grantId == g.grantId == input.grantId
    requires input.subjectId.Some? ==> input.subjectId.value == g.subjectId
    ensures var t := Remember(Recorded(s, g, e), input, FreshResult(g, e));
      StepOk(s, t) && Answered(t, input, FreshResult(g, e))
  {
    var s1 := Recorded(s, g, e);
    RevokeKeepsRest(s, g, e);
    FreshAnswerOk(s, input, g, e);
    RememberKeepsInv(s1, input, FreshResult(g, e));
    PreservesTransitive(s, s1, Remember(s1, input, FreshResult(g, e)));
  }

  /** A first revocation stores a grant and a record that tell the same story. */
  lemma FreshStep(s: State, input: RevokeInput, requestedAt: Time, completedAt: Time) returns (g: Grant, e: Evidence)
    requires s.sequence == |s.evidence| && input.grantId in s.grants && !s.grants[input.grantId].revoked
    requires s.grants[input.grantId].grantId == input.grantId
    requires input.subjectId.Some? ==> input.subjectId.value == s.grants[input.grantId].subjectId
    ensures e.grantId == g.grantId == input.grantId && g.subjectId == s.grants[input.grantId].subjectId
    ensures g == s.grants[e.grantId].(revoked := true, revokedAt := g.revokedAt, revocationId := g.revocationId,
      revocationReason := g.revocationReason)
    ensures Tells(e, |s.evidence|, s.grants[e.grantId := g])
    ensures RevokeUncached(s, input, requestedAt, completedAt)
         == (Remember(Recorded(s, g, e), input, FreshResult(g, e)), Result.Ok(FreshResult(g, e)))
  {
    var reason := if input.reason.Some? then input.reason.value else "MANUAL_REVOCATION";
    var was := s.grants[input.grantId];
    g := was.(
      revoked := true, revokedAt := Some(completedAt), revocationId := Some(RevocationId(s.sequence + 1)),
      revocationReason := Some(reason));
    e := Evidence(
      EvidenceId(|s.evidence| + 1), RevocationId(s.sequence + 1), was.grantId, was.subjectId, was.requesterId, reason,
      input.idempotencyKey, requestedAt, completedAt);
  }

  lemma FreshKeepsInv(s: State, input: RevokeInput, requestedAt: Time, completedAt: Time)
    requires Inv(s) && !CacheHit(s, input)
    requires input.grantId in s.grants && !s.grants[input.grantId].revoked
    requires input.subjectId.Some? ==> input.subjectId.value == s.grants[input.grantId].subjectId
    ensures var (t, r) := RevokeUncached(s, input, requestedAt, completedAt);
      StepOk(s, t) && r.Ok? && Answered(t, input, r.value)
  {
    assert GrantOk(s.grants[input.grantId], input.grantId);
    var g, e := FreshStep(s, input, requestedAt, completedAt);
    RecordedKeepsInv(s, input, g, e);
  }

  lemma RepeatKeepsInv(s: State, input: RevokeInput, requestedAt: Time)
    requires Inv(s) && !CacheHit(s, input)
    requires input.grantId in s.grants && s.grants[input.grantId].revoked
    requires input.subjectId.Some? ==> input.subjectId.value == s.grants[input.grantId].subjectId
    ensures var stable := StableResult(s.evidence, s.grants[input.grantId], requestedAt);
      StepOk(s, Remember(s, input, stable)) && Answered(Remember(s, input, stable), input, stable)
  {
    assert GrantOk(s.grants[input.grantId], input.grantId);
    RememberKeepsInv(s, input, StableResult(s.evidence, s.grants[input.grantId], requestedAt));
  }

  lemma HitAnswers(s: State, input: RevokeInput)
    requires Inv(s) && CacheHit(s, input)
    requires s.cache[input.idempotencyKey.value].fingerprint == FingerprintOf(input)
    ensures Answered(s, input, s.cache[input.idempotencyKey.value].result.(idempotentReplay := true))
  {
    var c := s.cache[input.idempotencyKey.value];
    assert AnswerOk(c.fingerprint, c.result, s.grants, s.evidence);
  }

  lemma RevokeKeepsInv(s: State, input: RevokeInput, requestedAt: Time, completedAt: Time)
    requires Inv(s)
    ensures var (t, r) := Revoke(s, input, requestedAt, completedAt);
      StepOk(s, t) && (r.Ok? ==> Answered(t, input, r.value))
  {
    var (t, r) := Revoke(s, input, requestedAt, completedAt);
    if r.Err? {
      assert t == s;
    } else if CacheHit(s, input) {
      HitAnswers(s, input);
    } else if s.grants[input.grantId].revoked {
      RepeatKeepsInv(s, input, requestedAt);
    } else {
      FreshKeepsInv(s, input, requestedAt, completedAt);
    }
  }

  lemma ApplyKeepsInv(s: State, op: Op)
    requires Inv(s)
    ensures StepOk(s, Apply(s, op))
  {
    match op
    case DoCreate(input, now) => CreateKeepsInv(s, input, now);
    case DoDecide(input, updatedAt, grantedAt) => DecideKeepsInv(s, input, updatedAt, grantedAt);
    case DoRevoke(input, requestedAt, completedAt) => RevokeKeepsInv(s, input, requestedAt, completedAt);
  }

  // ---------- results about every run ----------

  /** The invariant holds along every run, and no run alters a revoked grant, the evidence or a cached answer. */
  lemma {:induction false} RunKeepsInv(s: State, ops: seq<Op>)
    requires Inv(s)
    ensures StepOk(s, Run(s, ops))
    decreases |ops|
  {
    if ops != [] {
      ApplyKeepsInv(s, ops[0]);
      RunKeepsInv(Apply(s, ops[0]), ops[1..]);
      PreservesTransitive(s, Apply(s, ops[0]), Run(s, ops));
    }
  }

  lemma Reachable(ops: seq<Op>)
    ensures Inv(Run(Empty(), ops))
  {
    assert Inv(Empty());
    RunKeepsInv(Empty(), ops);
  }

  lemma EvidenceIdsDistinct(evidence: seq<Evidence>, grants: map<string, Grant>, i: nat, j: nat)
    requires EvidenceOk(evidence, grants) && i < j < |evidence|
    ensures evidence[i].evidenceRecordId != evidence[j].evidenceRecordId
    ensures evidence[i].revocationId != evidence[j].revocationId
  {
    assert Tells(evidence[i], i, grants) && Tells(evidence[j], j, grants);
    if EvidenceId(i + 1) == EvidenceId(j + 1) { Text.NumberedInjective("evd_", i + 1, j + 1); }
    if RevocationId(i + 1) == RevocationId(j + 1) { Text.NumberedInjective("rev_", i + 1, j + 1); }
  }

  lemma RevokedHasEvidence(evidence: seq<Evidence>, grants: map<string, Grant>, k: string)
    requires EvidenceOk(evidence, grants) && k in grants
    ensures grants[k].revoked <==> HasEvidence(evidence, k)
  {
    if HasEvidence(evidence, k) {
      var i :| 0 <= i < |evidence| && evidence[i].grantId == k;
      assert Tells(evidence[i], i, grants);
    }
  }

  /** In every reachable state, revocation evidence and revoked grants correspond one to one and agree on id,
      reason and time; the counter is the length of the log; no id is used twice. */
  lemma EvidenceMatchesRevokedGrants(ops: seq<Op>)
    ensures var s := Run(Empty(), ops);
      && s.sequence == |s.evidence|
      && (forall i | 0 <= i < |s.evidence| :: Tells(s.evidence[i], i, s.grants))
      && (forall k | k in s.grants :: s.grants[k].revoked <==> HasEvidence(s.evidence, k))
      && (forall i, j | 0 <= i < j < |s.evidence| ::
            && s.evidence[i].grantId != s.evidence[j].grantId
            && s.evidence[i].evidenceRecordId != s.evidence[j].evidenceRecordId
            && s.evidence[i].revocationId != s.evidence[j].revocationId)
  {
    Reachable(ops);
    var evidence, grants := Run(Empty(), ops).evidence, Run(Empty(), ops).grants;
    forall i, j | 0 <= i < j < |evidence|
      ensures evidence[i].evidenceRecordId != evidence[j].evidenceRecordId
      ensures evidence[i].revocationId != evidence[j].revocationId
    {
      EvidenceIdsDistinct(evidence, grants, i, j);
    }
    forall k | k in grants ensures grants[k].revoked <==> HasEvidence(evidence, k) {
      RevokedHasEvidence(evidence, grants, k);
    }
  }

  /** In every reachable state, a cache hit with the matching fingerprint answers exactly what the uncached path
      would answer, which would find the grant revoked and not fail, and would change nothing but the cache. */
  lemma CacheAgreesWithUncachedPath(ops: seq<Op>, input: RevokeInput, requestedAt: Time, completedAt: Time)
    requires var s := Run(Empty(), ops);
      CacheHit(s, input) && s.cache[input.idempotencyKey.value].fingerprint == FingerprintOf(input)
    ensures var s := Run(Empty(), ops);
      var cached := Revoke(s, input, requestedAt, completedAt);
      var plain := RevokeUncached(s, input, requestedAt, completedAt);
      && cached.0 == s && cached.1 == plain.1 && plain.1.Ok?
      && plain.1.value.idempotentReplay && plain.1.value.grant == s.grants[input.grantId] && plain.1.value.grant.revoked
      && plain.0 == s.(cache := plain.0.cache)
  {
    Reachable(ops);
    var s := Run(Empty(), ops);
    var c := s.cache[input.idempotencyKey.value];
    assert AnswerOk(c.fingerprint, c.result, s.grants, s.evidence);
    assert GrantOk(s.grants[input.grantId], input.grantId);
  }

  /** Asked of a state in which it was answered before, a revocation is a replay. */
  lemma AnsweredReplays(s: State, input: RevokeInput, result: RevokeResult, requestedAt: Time, completedAt: Time)
    requires Inv(s) && Answered(s, input, result)
    ensures var (t, r) := Revoke(s, input, requestedAt, completedAt);
      r == Ok(result.(idempotentReplay := true)) && t.grants == s.grants && t.evidence == s.evidence
  {
    assert GrantOk(s.grants[input.grantId], input.grantId);
    if CacheHit(s, input) {
      var c := s.cache[input.idempotencyKey.value];
      assert AnswerOk(c.fingerprint, c.result, s.grants, s.evidence);
    }
  }

  lemma AnsweredStays(s: State, t: State, input: RevokeInput, result: RevokeResult)
    requires Inv(s) && Preserves(s, t) && Answered(s, input, result)
    ensures Answered(t, input, result)
  {
    assert GrantOk(s.grants[input.grantId], input.grantId);
    FirstEvidenceStays(s.evidence, t.evidence, input.grantId);
  }

  /** Retrying a successful revocation, with or without a key and after any other operations, gives the first
      answer again, marked as a replay, and leaves grants and evidence alone. */
  lemma RevocationIsIdempotent(
    before: seq<Op>, input: RevokeInput, between: seq<Op>, at1: Time, done1: Time, at2: Time, done2: Time)
    requires Revoke(Run(Empty(), before), input, at1, done1).1.Ok?
    ensures var first := Revoke(Run(Empty(), before), input, at1, done1);
      var s := Run(first.0, between);
      var second := Revoke(s, input, at2, done2);
      && second.1 == Ok(first.1.value.(idempotentReplay := true))
      && second.0.grants == s.grants && second.0.evidence == s.evidence
  {
    Reachable(before);
    RevokeKeepsInv(Run(Empty(), before), input, at1, done1);
    var (s1, r1) := Revoke(Run(Empty(), before), input, at1, done1);
    RunKeepsInv(s1, between);
    AnsweredStays(s1, Run(s1, between), input, r1.value);
    AnsweredReplays(Run(s1, between), input, r1.value, at2, done2);
  }

  // ---------- listing grants ----------

  /** Active, and matching the filters that are given and not empty. */
  predicate Listed(g: Grant, subjectId: Option<string>, requesterId: Option<string>) {
    && !g.revoked
    && (subjectId.Some? && subjectId.value != "" ==> g.subjectId == subjectId.value)
    && (requesterId.Some? && requesterId.value != "" ==> g.requesterId == requesterId.value)
  }

  predicate NumberedUpTo(grants: map<string, Grant>, n: nat) {
    forall m | 1 <= m <= n :: GrantId(m) in grants
  }

  lemma AllNumbered(grants: map<string, Grant>)
    requires GrantsOk(grants)
    ensures NumberedUpTo(grants, |grants|)
  {
    forall m | 1 <= m <= |grants| ensures GrantId(m) in grants {
      IdsMembers("ga_", |grants|, GrantId(m));
    }
  }

  /** The listed grants among the first `n`, in insertion order, which is the order of their numbers. */
  function ActiveGrants(
    grants: map<string, Grant>, n: nat, subjectId: Option<string>, requesterId: Option<string>): seq<Grant>
    requires NumberedUpTo(grants, n)
  {
    if n == 0 then []
    else
      var earlier := ActiveGrants(grants, n - 1, subjectId, requesterId);
      if Listed(grants[GrantId(n)], subjectId, requesterId) then earlier + [grants[GrantId(n)]] else earlier
  }

  lemma {:induction false} ActiveMembers(
    grants: map<string, Grant>, n: nat, subjectId: Option<string>, requesterId: Option<string>, g: Grant)
    requires NumberedUpTo(grants, n)
    ensures g in ActiveGrants(grants, n, subjectId, requesterId)
       <==> Listed(g, subjectId, requesterId) && exists m | 1 <= m <= n :: grants[GrantId(m)] == g
  {
    if n > 0 {
      ActiveMembers(grants, n - 1, subjectId, requesterId, g);
    }
  }

  /** Exactly the stored grants that are active and match. */
  lemma ActiveExactly(grants: map<string, Grant>, subjectId: Option<string>, requesterId: Option<string>, g: Grant)
    requires GrantsOk(grants)
    ensures NumberedUpTo(grants, |grants|)
    ensures g in ActiveGrants(grants, |grants|, subjectId, requesterId)
       <==>
         && g.grantId in grants && grants[g.grantId] == g && !g.revoked
         && (subjectId.Some? && subjectId.value != "" ==> g.subjectId == subjectId.value)
         && (requesterId.Some? && requesterId.value != "" ==> g.requesterId == requesterId.value)
  {
    AllNumbered(grants);
    ActiveMembers(grants, |grants|, subjectId, requesterId, g);
    if g.grantId in grants && grants[g.grantId] == g {
      var m := IdIndex("ga_", |grants|, g.grantId);
      assert grants[GrantId(m)] == g;
    }
    if exists m | 1 <= m <= |grants| :: grants[GrantId(m)] == g {
      var m :| 1 <= m <= |grants| && grants[GrantId(m)] == g;
      assert GrantOk(grants[GrantId(m)], GrantId(m));
    }
  }

  lemma {:induction false} ActiveNumber(
    grants: map<string, Grant>, n: nat, subjectId: Option<string>, requesterId: Option<string>, i: nat) returns (m: nat)
    requires NumberedUpTo(grants, n) && i < |ActiveGrants(grants, n, subjectId, requesterId)|
    ensures 1 <= m <= n && ActiveGrants(grants, n, subjectId, requesterId)[i] == grants[GrantId(m)]
  {
    if i < |ActiveGrants(grants, n - 1, subjectId, requesterId)| {
      m := ActiveNumber(grants, n - 1, subjectId, requesterId, i);
    } else {
      m := n;
    }
  }

  /** Earlier places hold grants with smaller numbers: the listing follows the order of granting, without repeats. */
  lemma {:induction false} ActiveInOrder(
    grants: map<string, Grant>, n: nat, subjectId: Option<string>, requesterId: Option<string>, i: nat, j: nat)
    returns (m: nat, k: nat)
    requires NumberedUpTo(grants, n) && i < j < |ActiveGrants(grants, n, subjectId, requesterId)|
    ensures 1 <= m < k <= n
    ensures var r := ActiveGrants(grants, n, subjectId, requesterId);
      r[i] == grants[GrantId(m)] && r[j] == grants[GrantId(k)]
  {
    if j < |ActiveGrants(grants, n - 1, subjectId, requesterId)| {
      m, k := ActiveInOrder(grants, n - 1, subjectId, requesterId, i, j);
    } else {
      m := ActiveNumber(grants, n - 1, subjectId, requesterId, i);
      k := n;
    }
  }

  // ---------- the service ----------

  class ControlPlaneService {
    var requests: map<string, AccessRequest>
    var grants: map<string, Grant>
    var revocationEvidence: seq<Evidence>
    var revocationIdempotency: map<string, Cached>
    var revocationSequence: nat

    ghost function Now(): State
      reads this
    {
      State(requests, grants, revocationEvidence, revocationIdempotency, revocationSequence)
    }

    constructor ()
      ensures Now() == Empty()
    {
      requests, grants, revocationEvidence := map[], map[], [];
      revocationIdempotency, revocationSequence := map[], 0;
    }

    method CreateAccessRequest(input: CreateInput, now: Time) returns (request: AccessRequest)
      modifies this
      ensures (Now(), request) == Create(old(Now()), input, now)
    {
      var requestId := Numbered("ar_", |requests| + 1);
      request := AccessRequest(
        requestId, input.subjectId, input.requesterId, input.datasetId, input.purpose, input.requestedScope,
        Pending, now, now);
      requests := requests[requestId := request];
    }

    method DecideAccessRequest(input: DecideInput, updatedAt: Time, grantedAt: Time) returns (r: Result<Decided, Error>)
      modifies this
      ensures (Now(), r) == Decide(old(Now()), input, updatedAt, grantedAt)
    {
      if input.requestId !in requests {
        return Err(RequestNotFound(input.requestId));
      }
      var request := requests[input.requestId];
      if input.subjectId.Some? && input.subjectId.value != request.subjectId {
        return Err(SubjectMismatch(input.requestId));
      }
      request := request.(status := if input.approve then Approved else Denied);
      request := request.(updatedAt := updatedAt);
      requests := requests[request.requestId := request];
      if !input.approve {
        return Ok(Decided(request, false, ReasonCode(input), None));
      }
      var grant := Grant(
        GrantId(|grants| + 1), request.requestId, request.subjectId, request.requesterId, request.datasetId,
        request.requestedScope, grantedAt, false, None, None, None);
      grants := grants[grant.grantId := grant];
      r := Ok(Decided(request, true, ReasonCode(input), Some(grant)));
    }

    method RevokeGrant(input: RevokeInput, requestedAt: Time, completedAt: Time)
      returns (r: Result<RevokeResult, Error>)
      modifies this
      ensures (Now(), r) == Revoke(old(Now()), input, requestedAt, completedAt)
    {
      var fingerprint := FingerprintOf(input);
      if input.idempotencyKey.Some? && input.idempotencyKey.value in revocationIdempotency {
        var cached := revocationIdempotency[input.idempotencyKey.value];
        if cached.fingerprint != fingerprint {
          return Err(IdempotencyConflict(input.idempotencyKey.value));
        }
        return Ok(cached.result.(idempotentReplay := true));
      }
      if input.grantId !in grants {
        return Err(GrantNotFound(input.grantId));
      }
      var grant := grants[input.grantId];
      if input.subjectId.Some? && input.subjectId.value != grant.subjectId {
        return Err(SubjectMismatch(input.grantId));
      }
      if grant.revoked {
        var evidenceId := FindEvidence(grant.grantId);
        var stable := RevokeResult(
          grant, if grant.revocationId.Some? then grant.revocationId.value else "unknown", true, evidenceId,
          if grant.revokedAt.Some? then grant.revokedAt.value else requestedAt);
        if input.idempotencyKey.Some? {
          revocationIdempotency := revocationIdempotency[input.idempotencyKey.value := Cached(fingerprint, stable)];
        }
        return Ok(stable);
      }
      revocationSequence := revocationSequence + 1;
      var revocationId := RevocationId(revocationSequence);
      var reason := if input.reason.Some? then input.reason.value else "MANUAL_REVOCATION";
      grant := grant.(revoked := true);
      grant := grant.(revokedAt := Some(completedAt));
      grant := grant.(revocationId := Some(revocationId));
      grant := grant.(revocationReason := Some(reason));
      grants := grants[grant.grantId := grant];
      var evidenceId := EvidenceId(|revocationEvidence| + 1);
      revocationEvidence := revocationEvidence + [Evidence(
        evidenceId, revocationId, grant.grantId, grant.subjectId, grant.requesterId, reason, input.idempotencyKey,
        requestedAt, completedAt)];
      var result := RevokeResult(grant, revocationId, false, evidenceId, completedAt);
      if input.idempotencyKey.Some? {
        revocationIdempotency := revocationIdempotency[input.idempotencyKey.value := Cached(fingerprint, result)];
      }
      r := Ok(result);
    }

    method FindEvidence(grantId: string) returns (id: string)
      ensures id == FirstEvidence(revocationEvidence, grantId)
    {
      for i := 0 to |revocationEvidence|
        invariant FirstEvidence(revocationEvidence, grantId) == FirstEvidence(revocationEvidence[i..], grantId)
      {
        if revocationEvidence[i].grantId == grantId {
          return revocationEvidence[i].evidenceRecordId;
        }
      }
      id := "unknown";
    }

    method ListActiveGrants(subjectId: Option<string>, requesterId: Option<string>) returns (r: seq<Grant>)
      requires GrantsOk(grants)
      ensures NumberedUpTo(grants, |grants|)
      ensures r == ActiveGrants(grants, |grants|, subjectId, requesterId)
    {
      AllNumbered(grants);
      r := [];
      for n := 0 to |grants|
        invariant r == ActiveGrants(grants, n, subjectId, requesterId)
      {
        if Listed(grants[GrantId(n + 1)], subjectId, requesterId) {
          r := r + [grants[GrantId(n + 1)]];
        }
      }
    }
  }
}
