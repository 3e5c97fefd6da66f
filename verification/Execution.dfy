/** Execution authorisation: an enforced request becomes a contract. */
module Execution {
  import opened Options
  import opened Text
  import opened Sorting
  import opened Values
  import opened Capability
  import opened Enforcement
  import C = Consent

  datatype TargetText = TargetText(adapter: string, operation: string)

  /** The fields shared with an enforcement request, and the two of its own. */
  datatype ExecutionInput =
    | NullExecution
    | NoExecutionRecord
    | ExecutionRecord(shared: EnforcementInput, target: Value, payload: Value)

  datatype ExecutionRequest = ExecutionRequest(request: Request, target: TargetText, payload: Option<Value>)

  // ---------- parsing ----------

  predicate TargetParses(v: Value) {
    v.Target? && NonBlank(v.adapter) && NonBlank(v.operation)
  }

  predicate PayloadParses(v: Value) {
    v.Undefined? || v.Null? || IsObject(v)
  }

  /** The execution parser reads bindings, resource and context itself before the enforcement parser sees them. */
  predicate OwnFieldsParse(e: EnforcementInput) {
    && e.RequestRecord? && e.capability.Some?
    && BindingParses(e.subject) && BindingParses(e.grantee) && BindingParses(e.marketMakerId)
    && ResourceParses(e.resource) && ContextParses(e.actionContext) && (e.now.NoNow? || e.now.At?)
  }

  function Reread(e: EnforcementInput): EnforcementInput
    requires OwnFieldsParse(e)
  {
    e.(subject := StrOpt(ParseBinding(e.subject)), grantee := StrOpt(ParseBinding(e.grantee)),
       marketMakerId := StrOpt(ParseBinding(e.marketMakerId)), resource := EmbedResource(ParseResource(e.resource)))
  }

  /** Parsing and normalising an execution request. */
  function NormalizedExecution(input: ExecutionInput): Option<ExecutionRequest> {
    if !input.ExecutionRecord? || !OwnFieldsParse(input.shared) then None
    else
      match Normalized(Reread(input.shared))
      case None => None
      case Some(r) =>
        if !TargetParses(input.target) || !PayloadParses(input.payload) then None
        else Some(ExecutionRequest(
          r, TargetText(Trim(Trim(input.target.adapter.s)), Trim(Trim(input.target.operation.s))),
          if input.payload.Undefined? then None else Some(input.payload)))
  }

  // ---------- authorisation ----------

  datatype Contract = Contract(
    adapter: string, operation: string, subject: string, grantee: string, allowedScope: seq<Scope>,
    allowedPermissions: seq<string>, capabilityHash: string, parentConsentHash: string,
    marketMakerId: Option<string>, resource: ResourceField, actionContext: Option<Value>, issuedAt: string)

  function BuildExecutionContract(e: ExecutionRequest, c: Capability, issuedAt: string): Contract {
    Contract(
      e.target.adapter, e.target.operation, c.subject, c.grantee, e.request.scope, e.request.permissions,
      c.capabilityHash, c.parentConsentHash, e.request.marketMakerId, e.request.resource, e.request.actionContext,
      issuedAt)
  }

  datatype ExecutionReason = FromEnforcement(code: ReasonCode) | ExecutionRequestInvalid | ExecutionAuthorized

  datatype Authorization = Authorization(
    authorized: bool, reason: ExecutionReason, target: TargetText, evaluatedAt: Instant,
    decision: Option<Decision>, contract: Option<Contract>)

  function FallbackText(v: Value): string {
    if NonBlank(v) then Trim(v.s) else "unknown"
  }

  function FallbackTarget(input: ExecutionInput): TargetText {
    if input.ExecutionRecord? && input.target.Target?
    then TargetText(FallbackText(input.target.adapter), FallbackText(input.target.operation))
    else TargetText("unknown", "unknown")
  }

  function RequestTime(input: ExecutionInput, clock: Instant): Instant {
    if input.ExecutionRecord? && input.shared.RequestRecord? && input.shared.now.At? then input.shared.now.at else clock
  }

  /** Reading `now` off `null`, or telling the time of a `now` that is no date, is an exception and not a rejection. */
  predicate ExecutionThrows(input: ExecutionInput) {
    input.NullExecution? || (input.ExecutionRecord? && EnforcementThrows(input.shared))
  }

  /** The authorisation, `None` when an exception is thrown instead. */
  function AuthorizeExecution(input: ExecutionInput, clock: Instant, port: Port, hash: HashFn): Option<Authorization> {
    if ExecutionThrows(input) then None
    else
      var now := RequestTime(input, clock);
      match NormalizedExecution(input)
      case None => Some(Authorization(false, ExecutionRequestInvalid, FallbackTarget(input), now, None, None))
      case Some(e) =>
        match EvaluateEnforcement(EmbedRequest(Timed(e, now)), clock, port, hash)
        case None => None
        case Some(d) => Some(AuthorizeDecided(e, d, now))
  }

  function Timed(e: ExecutionRequest, now: Instant): Request {
    e.request.(now := Some(if e.request.now.Some? then e.request.now.value else now))
  }

  function AuthorizeDecided(e: ExecutionRequest, d: Decision, now: Instant): Authorization {
    if !d.allowed || d.capability.None?
    then Authorization(false, FromEnforcement(d.reason), e.target, now, Some(d), None)
    else Authorization(true, ExecutionAuthorized, e.target, now, Some(d),
                       Some(BuildExecutionContract(e, d.capability.value, now.iso)))
  }

  predicate Authorizes(outcome: Option<Authorization>) {
    outcome.Some? && outcome.value.authorized
  }

  // ---------- what an authorisation rests on ----------

  lemma NormalizedExecutionIsNormal(input: ExecutionInput)
    requires NormalizedExecution(input).Some?
    ensures NormalRequest(NormalizedExecution(input).value.request)
    ensures NormalizedExecution(input).value.request.capability == input.shared.capability.value
    ensures NormalizedExecution(input).value.request.now ==
      if input.shared.now.At? then Some(input.shared.now.at) else None
  {
    NormalizedIsNormal(Reread(input.shared));
  }

  /** The enforcement of a parsed request at its time. */
  lemma TimedDecision(e: ExecutionRequest, now: Instant, clock: Instant, port: Port, hash: HashFn)
    requires NormalRequest(e.request)
    ensures var outcome := EvaluateEnforcement(EmbedRequest(Timed(e, now)), clock, port, hash);
      && outcome.Some?
      && (outcome.value.allowed <==>
            EvaluateCapabilityAccess(e.request.capability, AccessOf(e.request, now), port, hash))
      && Explains(outcome.value, Some(Timed(e, now)), hash)
  {
    NormalizeIdempotent(Timed(e, now));
    DecisionsAgree(EmbedRequest(Timed(e, now)), clock, port, hash);
    assert AccessOf(Timed(e, now), clock) == AccessOf(e.request, now);
  }

  /** An authorisation and the contract, the reason and the request behind it. */
  ghost predicate Documents(a: Authorization, e: ExecutionRequest, now: Instant, hash: HashFn) {
    && (a.authorized <==> a.contract.Some?) && (a.authorized <==> a.reason == ExecutionAuthorized)
    && (a.authorized ==>
          var verification := VerifyCapability(e.request.capability, hash);
          verification.Accepted? && a.contract.value == BuildExecutionContract(e, verification.capability, now.iso))
  }

  lemma DecidedDocuments(e: ExecutionRequest, d: Decision, now: Instant, hash: HashFn)
    requires Explains(d, Some(Timed(e, now)), hash)
    ensures AuthorizeDecided(e, d, now).authorized <==> d.allowed
    ensures Documents(AuthorizeDecided(e, d, now), e, now, hash)
  {
  }

  lemma AuthorizeUnfolds(
    input: ExecutionInput, e: ExecutionRequest, d: Decision, clock: Instant, port: Port, hash: HashFn)
    requires NormalizedExecution(input) == Some(e)
    requires EvaluateEnforcement(EmbedRequest(Timed(e, RequestTime(input, clock))), clock, port, hash) == Some(d)
    ensures !ExecutionThrows(input)
    ensures AuthorizeExecution(input, clock, port, hash) == Some(AuthorizeDecided(e, d, RequestTime(input, clock)))
  {
  }

  /** A contract is issued exactly for an authorised request, exactly when the request parses and the access
      check allows it at the request's time; it then repeats the request's scope and permissions and the
      verified capability's parties and hashes. There is no answer exactly when an exception is thrown. */
  lemma AuthorizedExactly(input: ExecutionInput, clock: Instant, port: Port, hash: HashFn)
    ensures var outcome := AuthorizeExecution(input, clock, port, hash);
      var e, now := NormalizedExecution(input), RequestTime(input, clock);
      && (outcome.None? <==>
            || input.NullExecution?
            || (input.ExecutionRecord?
                && (input.shared.NullRequest? || (input.shared.RequestRecord? && input.shared.now.BadNow?))))
      && (Authorizes(outcome) <==>
            e.Some? && EvaluateCapabilityAccess(e.value.request.capability, AccessOf(e.value.request, now), port, hash))
      && (outcome.Some? && e.None? ==> outcome.value.contract.None? && outcome.value.reason == ExecutionRequestInvalid)
      && (outcome.Some? && e.Some? ==> Documents(outcome.value, e.value, now, hash))
  {
    var parsed, now := NormalizedExecution(input), RequestTime(input, clock);
    if parsed.Some? {
      NormalizedExecutionIsNormal(input);
      TimedDecision(parsed.value, now, clock, port, hash);
      var d := EvaluateEnforcement(EmbedRequest(Timed(parsed.value, now)), clock, port, hash).value;
      DecidedDocuments(parsed.value, d, now, hash);
      AuthorizeUnfolds(input, parsed.value, d, clock, port, hash);
    }
  }

  /** What the access check guarantees about the capability behind a contract. */
  lemma AccessMeans(c: Capability, q: AccessRequest, port: Port)
    requires AccessFor(Accepted(c), q, port)
    requires forall e | e in c.scope :: ValidEntry(e)
    ensures port(Subject(c.capabilityHash, CapabilityGrant)) == VerifiedNotRevoked
    ensures StrLt(q.now.iso, c.expiresAt) && (c.notBefore.Some? ==> StrLeq(c.notBefore.value, q.now.iso))
    ensures forall e | e in q.scope :: NormalEntry(e) in c.scope
    ensures forall p | p in q.permissions :: Norm(p) in c.permissions
    ensures BindingMatches(q.subject, Some(c.subject)) && BindingMatches(q.grantee, Some(c.grantee))
    ensures BindingMatches(q.marketMakerId, c.marketMakerId)
  {
    forall e | e in q.scope ensures NormalEntry(e) in c.scope {
      KeyMember(NormalEntry(e), c.scope);
    }
  }

  /** A contract stays inside the consent, names its parties and its hash, and was issued in time for
      a capability the port vouched for. */
  ghost predicate WithinConsent(k: Contract, consent: C.Consent, c: Capability, at: Instant, port: Port) {
    && (forall e | e in k.allowedScope :: e in consent.scope)
    && (forall p | p in k.allowedPermissions :: p in consent.permissions)
    && k.subject == consent.subject && k.grantee == consent.grantee && k.parentConsentHash == consent.consentHash
    && (k.marketMakerId.Some? ==> k.marketMakerId == consent.marketMakerId)
    && k.capabilityHash == c.capabilityHash
    && port(Subject(c.capabilityHash, CapabilityGrant)) == VerifiedNotRevoked
    && StrLt(at.iso, c.expiresAt)
    && (consent.expiresAt.Some? ==> StrLeq(c.expiresAt, consent.expiresAt.value))
    && (c.notBefore.Some? ==> StrLeq(c.notBefore.value, at.iso))
  }

  lemma ContractWithin(
    k: Contract, e: ExecutionRequest, c: Capability, consent: C.Consent, now: Instant, at: Instant, port: Port)
    requires NormalRequest(e.request) && Attenuates(c, consent) && (forall x | x in c.scope :: ValidEntry(x))
    requires AccessFor(Accepted(c), AccessOf(e.request, now), port) && at == AccessOf(e.request, now).now
    requires k == BuildExecutionContract(e, c, now.iso)
    ensures WithinConsent(k, consent, c, at, port)
  {
    var q := AccessOf(e.request, now);
    AccessMeans(c, q, port);
    forall x | x in k.allowedScope ensures x in consent.scope {
      assert NormalEntry(x) == x;
    }
    forall p | p in k.allowedPermissions ensures p in consent.permissions {
      assert Norm(p) == p;
    }
  }

  /** From consent to contract: whatever is authorised with a minted capability, in any spelling of it, stays
      within the normalised parent consent, which was itself vouched for when the capability was minted. */
  lemma ContractAttenuatesConsent(
    m: MintInput, d: Capability, input: ExecutionInput, clock: Instant, port: Port, hash: HashFn, parseDate: DateParse)
    requires MintCapability(m, hash, parseDate).Ok?
    requires Respelling(MintCapability(m, hash, parseDate).value, d)
    requires input.ExecutionRecord? && input.shared.RequestRecord? && input.shared.capability == Some(Embed(d))
    requires Authorizes(AuthorizeExecution(input, clock, port, hash))
    ensures C.NormalizeConsent(m.consent, parseDate).Ok?
    ensures var consent := C.NormalizeConsent(m.consent, parseDate).value;
      var a := AuthorizeExecution(input, clock, port, hash).value;
      && a.contract.Some?
      && WithinConsent(
           a.contract.value, consent, MintCapability(m, hash, parseDate).value, RequestTime(input, clock), port)
      && C.ValidConsent(consent, parseDate) && consent.action.Grant?
      && m.consentPort(Subject(consent.consentHash, ConsentGrant)) == VerifiedNotRevoked
  {
    var c := MintCapability(m, hash, parseDate).value;
    MintAttenuates(m, hash, parseDate);
    AuthorizedExactly(input, clock, port, hash);
    NormalizedExecutionIsNormal(input);
    var consent := C.NormalizeConsent(m.consent, parseDate).value;
    var e := NormalizedExecution(input).value;
    AcceptedIsMinted(m, d, hash, parseDate);
    ContractWithin(AuthorizeExecution(input, clock, port, hash).value.contract.value, e, c, consent,
                   RequestTime(input, clock), RequestTime(input, clock), port);
  }

  /** When a spelling of a minted capability is accepted at all, it is accepted as that capability. */
  lemma AcceptedIsMinted(m: MintInput, d: Capability, hash: HashFn, parseDate: DateParse)
    requires MintCapability(m, hash, parseDate).Ok?
    requires Respelling(MintCapability(m, hash, parseDate).value, d)
    requires VerifyCapability(Embed(d), hash).Accepted?
    ensures VerifyCapability(Embed(d), hash) == Accepted(MintCapability(m, hash, parseDate).value)
  {
    MintIsCanonical(m, hash, parseDate);
    CanonicalVerifies(MintCapability(m, hash, parseDate).value, d, hash);
  }
}
