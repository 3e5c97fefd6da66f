/** Whether a consent still runs when a capability minted from it is used: the two are timed differently, the consent in
    milliseconds and the capability by whole seconds. */
module Lifetimes {
  import opened Options
  import opened Text
  import opened Values
  import opened Capability
  import opened Enforcement
  import opened Execution
  import opened Samples
  import C = Consent

  function Optional(text: Option<string>): set<string> {
    if text.Some? then {text.value} else {}
  }

  /** A capability starts before it expires. */
  ghost predicate InOrder(c: Capability) {
    c.notBefore.Some? ==> StrLt(c.notBefore.value, c.expiresAt)
  }

  /** A capability's times are written to the second; they need not be times of any calendar. */
  ghost predicate ToTheSecond(c: Capability) {
    IsoSecond(c.expiresAt) && (c.notBefore.Some? ==> IsoSecond(c.notBefore.value))
  }

  /** An instant whose text and milliseconds tell the same time, on one calendar with the date texts given. */
  ghost predicate OnCalendar(now: Instant, texts: set<string>, parse: DateParse) {
    Reads(now, parse) && Calendar({SecondOf(now)} + texts, parse)
  }

  /** In milliseconds: a capability starts a second after its start time, and ends a second after its expiry. */
  lemma StateInMillis(c: Capability, now: Instant, port: Port, parse: DateParse)
    requires ToTheSecond(c) && OnCalendar(now, {c.expiresAt} + Optional(c.notBefore), parse)
    requires Resolve(port(Subject(c.capabilityHash, CapabilityGrant))) == IsClear
    ensures StateOf(Accepted(c), now, port) == ClearState(
      c, c.notBefore.Some? && now.millis < parse(c.notBefore.value).value + 1000,
      now.millis >= parse(c.expiresAt).value + 1000)
  {
    var texts := {SecondOf(now)} + ({c.expiresAt} + Optional(c.notBefore));
    StateBySecond(c, now, port);
    SecondReached(now, c.expiresAt, texts, parse);
    if c.notBefore.Some? {
      SecondReached(now, c.notBefore.value, texts, parse);
    }
  }

  lemma SecondReached(now: Instant, limit: string, texts: set<string>, parse: DateParse)
    requires Reads(now, parse) && Calendar(texts, parse) && SecondOf(now) in texts && limit in texts
    ensures StrLeq(SecondOf(now), limit) <==> now.millis < parse(limit).value + 1000
    ensures now.millis >= parse(limit).value <==> StrLeq(limit, SecondOf(now))
    ensures SecondOf(now) == limit <==> parse(limit).value <= now.millis < parse(limit).value + 1000
  {
    var from, to := parse(SecondOf(now)).value, parse(limit).value;
    CalendarCompares(SecondOf(now), limit, texts, parse);
    CalendarCompares(limit, SecondOf(now), texts, parse);
    WholeSeconds(from, now.millis, to);
  }

  lemma WholeSeconds(from: int, now: int, to: int)
    requires from % 1000 == 0 && to % 1000 == 0 && from <= now < from + 1000
    ensures from < to + 1000 <==> now < to + 1000
    ensures to < from + 1000 <==> to <= now
    ensures from == to <==> to <= now < to + 1000
  {
    var x, y := from / 1000, to / 1000;
    assert from == 1000 * x && to == 1000 * y;
  }

  /** The consent's state at an instant at which a capability is active. */
  function StateAtUse(c: Capability, consent: C.Consent, now: Instant, issued: int): C.State
    requires MillisText(now.iso)
  {
    if now.millis < issued then C.Inactive
    else if consent.expiresAt == Some(c.expiresAt) && SecondOf(now) == c.expiresAt then C.Expired
    else C.Active
  }

  /** A capability that is active finds the consent it attenuates, if not revoked itself, still running, with two
      exceptions: an instant before the consent was issued, and the last second of a capability that lives as long as
      its consent, in which the consent has ended already. */
  lemma ConsentAtUse(
    c: Capability, consent: C.Consent, now: Instant, port: Port, consentPort: Port, parse: DateParse)
    requires Attenuates(c, consent) && C.ValidConsent(consent, parse) && consent.action.Grant?
    requires ToTheSecond(c) && StateOf(Accepted(c), now, port) == Active
    requires OnCalendar(now, Optional(consent.expiresAt), parse)
    requires consentPort(Subject(consent.consentHash, ConsentGrant)) == VerifiedNotRevoked
    ensures C.EvaluateConsentState(consent, now.millis, consentPort, parse)
         == StateAtUse(c, consent, now, parse(consent.issuedAt).value)
  {
    StateBySecond(c, now, port);
    if consent.expiresAt.Some? {
      var limit := consent.expiresAt.value;
      SecondReached(now, limit, {SecondOf(now)} + Optional(consent.expiresAt), parse);
      if StrLeq(limit, SecondOf(now)) {
        StrLeqTotal(c.expiresAt, SecondOf(now));
        StrLeqTransitive(c.expiresAt, limit, SecondOf(now));
        StrLeqAntisymmetric(c.expiresAt, SecondOf(now));
        StrLeqAntisymmetric(c.expiresAt, limit);
      }
      StrLeqTotal(limit, limit);
    }
  }

  /** Every use of a capability, while the port reports it clear, falls before its consent's end exactly when it was
      minted to expire earlier than the consent. */
  lemma UsedBeforeConsentEndsIff(c: Capability, limit: string, port: Port, parse: DateParse)
    requires StrLeq(c.expiresAt, limit) && InOrder(c) && IsoSecond(limit) && ToTheSecond(c)
    requires Calendar({limit}, parse)
    requires Resolve(port(Subject(c.capabilityHash, CapabilityGrant))) == IsClear
    ensures (forall now | OnCalendar(now, {limit}, parse) && StateOf(Accepted(c), now, port) == Active ::
               now.millis < parse(limit).value)
       <==> c.expiresAt != limit
  {
    if c.expiresAt == limit {
      var now := UsedInLastSecond(c, limit, port, parse);
      assert OnCalendar(now, {limit}, parse);
    } else {
      forall now | OnCalendar(now, {limit}, parse) && StateOf(Accepted(c), now, port) == Active
        ensures now.millis < parse(limit).value
      {
        UsedBeforeLimit(c, limit, now, port, parse);
      }
    }
  }

  lemma UsedInLastSecond(c: Capability, limit: string, port: Port, parse: DateParse) returns (now: Instant)
    requires c.expiresAt == limit && InOrder(c) && ToTheSecond(c) && Calendar({limit}, parse)
    requires Resolve(port(Subject(c.capabilityHash, CapabilityGrant))) == IsClear
    ensures OnCalendar(now, {limit}, parse) && StateOf(Accepted(c), now, port) == Active
    ensures now.millis == parse(limit).value
  {
    now := Instant(parse(limit).value, limit[..19] + ".000Z");
    assert now.iso[..19] == limit[..19] && SecondOf(now) == limit;
    assert {SecondOf(now)} + {limit} == {limit};
    StateBySecond(c, now, port);
    StrLeqTotal(limit, limit);
  }

  lemma UsedBeforeLimit(c: Capability, limit: string, now: Instant, port: Port, parse: DateParse)
    requires StrLeq(c.expiresAt, limit) && c.expiresAt != limit && ToTheSecond(c)
    requires OnCalendar(now, {limit}, parse) && StateOf(Accepted(c), now, port) == Active
    ensures now.millis < parse(limit).value
  {
    StateBySecond(c, now, port);
    SecondReached(now, limit, {SecondOf(now)} + {limit}, parse);
    if StrLeq(limit, SecondOf(now)) {
      StrLeqTransitive(c.expiresAt, limit, SecondOf(now));
      StrLeqTotal(c.expiresAt, SecondOf(now));
      StrLeqAntisymmetric(c.expiresAt, SecondOf(now));
      StrLeqAntisymmetric(c.expiresAt, limit);
    }
  }

  /** The same of a contract: when a minted capability, in any spelling, is authorised for execution, its consent, if
      not revoked since, is running at that time but for the same two exceptions. */
  lemma AuthorizedWhileConsentRuns(
    m: MintInput, c: Capability, consent: C.Consent, d: Capability, input: ExecutionInput, clock: Instant, port: Port,
    consentPort: Port, hash: HashFn, parse: DateParse)
    requires MintCapability(m, hash, parse) == Result.Ok(c)
    requires C.NormalizeConsent(m.consent, parse) == Result.Ok(consent) && Respelling(c, d)
    requires input.ExecutionRecord? && input.shared.RequestRecord? && input.shared.capability == Some(Embed(d))
    requires Authorizes(AuthorizeExecution(input, clock, port, hash))
    requires OnCalendar(RequestTime(input, clock), Optional(consent.expiresAt), parse)
    requires consentPort(Subject(consent.consentHash, ConsentGrant)) == VerifiedNotRevoked
    ensures parse(consent.issuedAt).Some?
    ensures var now := RequestTime(input, clock);
      C.EvaluateConsentState(consent, now.millis, consentPort, parse)
      == StateAtUse(c, consent, now, parse(consent.issuedAt).value)
  {
    MintAttenuates(m, hash, parse);
    MintIsCanonical(m, hash, parse);
    ActiveWhenAuthorized(m, c, d, input, clock, port, hash, parse);
    ConsentAtUse(c, consent, RequestTime(input, clock), port, consentPort, parse);
  }

  lemma ActiveWhenAuthorized(
    m: MintInput, c: Capability, d: Capability, input: ExecutionInput, clock: Instant, port: Port, hash: HashFn,
    parse: DateParse)
    requires MintCapability(m, hash, parse) == Result.Ok(c)
    requires Respelling(c, d)
    requires input.ExecutionRecord? && input.shared.RequestRecord? && input.shared.capability == Some(Embed(d))
    requires Authorizes(AuthorizeExecution(input, clock, port, hash))
    ensures StateOf(Accepted(c), RequestTime(input, clock), port) == Active
  {
    AuthorizedExactly(input, clock, port, hash);
    NormalizedExecutionIsNormal(input);
    AcceptedIsMinted(m, d, hash, parse);
  }

  // ---------- authorised after the consent's end ----------

  /** A request for one entry and one permission of a capability, at an instant. */
  function LateRequest(c: Capability, now: Instant): Request
    requires c.scope != [] && c.permissions != []
  {
    Request(Embed(c), [c.scope[0]], [c.permissions[0]], None, None, None, NoResource, None, Some(now))
  }

  function LateExecution(c: Capability, now: Instant): ExecutionInput
    requires c.scope != [] && c.permissions != []
  {
    ExecutionRecord(EmbedRequest(LateRequest(c, now)), Target(Str("a"), Str("b")), Undefined)
  }

  lemma LateRequestNormal(c: Capability, now: Instant)
    requires CanonicalScope(c.scope) && CanonicalPermissions(c.permissions)
    ensures NormalRequest(LateRequest(c, now))
  {
    assert c.scope[0] in c.scope && c.permissions[0] in c.permissions;
    Hex64Normal(c.scope[0].ref);
    PermissionNormal(c.permissions[0]);
  }

  lemma LateExecutionParses(c: Capability, now: Instant)
    requires CanonicalScope(c.scope) && CanonicalPermissions(c.permissions)
    ensures NormalizedExecution(LateExecution(c, now)).Some?
    ensures NormalizedExecution(LateExecution(c, now)).value.request == LateRequest(c, now)
  {
    var r := LateRequest(c, now);
    LateRequestNormal(c, now);
    NormalizeIdempotent(r);
    TrimFixed("a");
    TrimFixed("b");
    assert Reread(EmbedRequest(r)) == EmbedRequest(r);
  }

  lemma LateRequestGranted(c: Capability, now: Instant, port: Port)
    requires CanonicalScope(c.scope) && CanonicalPermissions(c.permissions)
    requires StateOf(Accepted(c), now, port) == Active
    ensures AccessFor(Accepted(c), AccessOf(LateRequest(c, now), now), port)
  {
    LateRequestNormal(c, now);
    AccessOnNormal(c, LateRequest(c, now), now, port);
    assert c.scope[0] in c.scope && c.permissions[0] in c.permissions;
  }

  lemma LateExecutionAuthorized(c: Capability, now: Instant, clock: Instant, port: Port, hash: HashFn)
    requires CanonicalScope(c.scope) && CanonicalPermissions(c.permissions)
    requires VerifyCapability(Embed(c), hash) == Accepted(c) && StateOf(Accepted(c), now, port) == Active
    ensures Authorizes(AuthorizeExecution(LateExecution(c, now), clock, port, hash))
  {
    LateExecutionParses(c, now);
    LateRequestGranted(c, now, port);
    AuthorizedExactly(LateExecution(c, now), clock, port, hash);
    assert RequestTime(LateExecution(c, now), clock) == now;
  }

  /** Whatever is minted to its consent's own expiry and can be verified is authorised for execution at the instant at
      which that consent, which nobody revoked, has expired. */
  lemma AuthorizedAfterConsentEnded(
    m: MintInput, c: Capability, consent: C.Consent, clock: Instant, port: Port, consentPort: Port, hash: HashFn,
    parse: DateParse) returns (now: Instant)
    requires MintCapability(m, hash, parse) == Result.Ok(c) && VerifyCapability(Embed(c), hash) == Accepted(c)
    requires C.NormalizeConsent(m.consent, parse) == Result.Ok(consent)
    requires consent.expiresAt == Some(c.expiresAt) && Calendar({c.expiresAt}, parse)
    requires port(Subject(c.capabilityHash, CapabilityGrant)) == VerifiedNotRevoked
    requires consentPort(Subject(consent.consentHash, ConsentGrant)) == VerifiedNotRevoked
    ensures Reads(now, parse) && c.scope != [] && c.permissions != []
    ensures Authorizes(AuthorizeExecution(LateExecution(c, now), clock, port, hash))
    ensures C.EvaluateConsentState(consent, now.millis, consentPort, parse) == C.Expired
  {
    MintIsCanonical(m, hash, parse);
    MintAttenuates(m, hash, parse);
    IssuedBeforeExpiry(m, consent, hash, parse);
    now := UsedInLastSecond(c, c.expiresAt, port, parse);
    LateExecutionAuthorized(c, now, clock, port, hash);
    ConsentEnds(consent, now.millis, consentPort, parse);
  }

  lemma ConsentEnds(consent: C.Consent, now: int, consentPort: Port, parse: DateParse)
    requires C.ValidConsent(consent, parse) && consent.action.Grant?
    requires consentPort(Subject(consent.consentHash, ConsentGrant)) == VerifiedNotRevoked
    requires parse(consent.issuedAt).Some? && parse(consent.issuedAt).value <= now
    requires consent.expiresAt.Some? && parse(consent.expiresAt.value) == Some(now)
    ensures C.EvaluateConsentState(consent, now, consentPort, parse) == C.Expired
  {
  }

  /** The consent a capability is minted from is running at the time of the mint. */
  lemma IssuedBeforeExpiry(m: MintInput, consent: C.Consent, hash: HashFn, parse: DateParse)
    requires MintCapability(m, hash, parse).Ok? && C.NormalizeConsent(m.consent, parse) == Result.Ok(consent)
    requires consent.expiresAt.Some?
    ensures parse(consent.issuedAt).Some? && parse(consent.expiresAt.value).Some?
    ensures parse(consent.issuedAt).value < parse(consent.expiresAt.value).value
  {
    MintedWhileActive(m, hash, parse);
    ActiveRuns(consent, parse(m.issuedAt).value, m.consentPort, parse);
  }

  lemma ActiveRuns(consent: C.Consent, now: int, consentPort: Port, parse: DateParse)
    requires C.EvaluateConsentState(consent, now, consentPort, parse) == C.Active && consent.expiresAt.Some?
    ensures parse(consent.issuedAt).Some? && parse(consent.expiresAt.value).Some?
    ensures parse(consent.issuedAt).value <= now < parse(consent.expiresAt.value).value
  {
  }

  /** One such mint in the concrete. */
  lemma AuthorizedAfterConsentEndedExample(clock: Instant, hash: HashFn, parse: DateParse)
    returns (c: Capability, now: Instant)
    requires ReadsSample(parse) && Calendar({T1}, parse)
    ensures MintCapability(SampleMint(), hash, parse) == Result.Ok(c)
    ensures C.NormalizeConsent(SampleMint().consent, parse) == Result.Ok(SampleConsent())
    ensures Reads(now, parse) && c.scope != [] && c.permissions != []
    ensures Authorizes(AuthorizeExecution(LateExecution(c, now), clock, SampleMint().consentPort, hash))
    ensures C.EvaluateConsentState(SampleConsent(), now.millis, SampleMint().consentPort, parse) == C.Expired
  {
    SampleIsMinted(hash, parse);
    SampleReads(parse);
    c := MintCapability(SampleMint(), hash, parse).value;
    MintIsCanonical(SampleMint(), hash, parse);
    CanonicalIsItsOwnSpelling(c, hash);
    MintedVerifies(SampleMint(), c, hash, parse);
    DefaultExpiry(SampleMint(), SampleConsent(), hash, parse);
    now := AuthorizedAfterConsentEnded(
      SampleMint(), c, SampleConsent(), clock, SampleMint().consentPort, SampleMint().consentPort, hash, parse);
  }

  /** Without an expiry of its own a mint takes the consent's. */
  lemma DefaultExpiry(m: MintInput, consent: C.Consent, hash: HashFn, parse: DateParse)
    requires MintCapability(m, hash, parse).Ok? && C.NormalizeConsent(m.consent, parse) == Result.Ok(consent)
    requires m.expiresAt.None?
    ensures Some(MintCapability(m, hash, parse).value.expiresAt) == consent.expiresAt
  {
    var _, expiresAt := MintOutcome(m, hash, parse);
  }
}
