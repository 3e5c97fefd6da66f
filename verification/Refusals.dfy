/** What is wrong when a mint or a verification refuses: the meaning of every error. */
module Refusals {
  import opened Options
  import opened Text
  import opened Sorting
  import opened Values
  import C = Consent
  import Cap = Capability
  import Tok = CapabilityToken

  // ---------- capabilities ----------

  /** What each fault of a record says that cannot be read as a capability. */
  ghost predicate Unreadable(fault: Cap.Fault, input: Cap.CapabilityInput) {
    if !input.CapabilityRecord? then fault.NotObject? else HeadUnreadable(fault, input) || RestUnreadable(fault, input)
  }

  ghost predicate HeadUnreadable(fault: Cap.Fault, input: Cap.CapabilityInput)
    requires input.CapabilityRecord?
  {
    || (fault.BadHash? && !(input.capabilityHash.Str? && Hex64(Norm(input.capabilityHash.s))))
    || (fault.BadParentHash? && !(input.parentConsentHash.Str? && Hex64(Norm(input.parentConsentHash.s))))
    || (fault.BadSubject? && !(input.subject.Str? && Did(Trim(input.subject.s))))
    || (fault.BadGrantee? && !(input.grantee.Str? && Did(Trim(input.grantee.s))))
    || (fault.BadIssuedAt? && !(input.issuedAt.Str? && IsoSecond(input.issuedAt.s)))
    || (fault.BadExpiresAt? && !(input.expiresAt.Str? && IsoSecond(input.expiresAt.s)))
  }

  ghost predicate RestUnreadable(fault: Cap.Fault, input: Cap.CapabilityInput)
    requires input.CapabilityRecord?
  {
    || (fault.BadScope? && !Entries(input.scope))
    || (fault.BadPermissions? && !Permissions(input.permissions))
    || (fault.BadNotBefore? && input.notBefore != Undefined
        && !(input.notBefore.Str? && IsoSecond(input.notBefore.s)))
    || (fault.BadMarketMaker? && input.marketMakerId != Undefined
        && !(input.marketMakerId.Str? && Trim(input.marketMakerId.s) != ""))
    || (fault.BadMetadata? && input.metadata != Undefined && !IsObject(input.metadata))
  }

  /** Some entries of a known kind whose references are hashes. */
  ghost predicate Entries(v: Value) {
    && v.Arr? && v.items != []
    && forall e | e in v.items ::
         e.Entry? && e.kind.Str? && e.ref.Str? && e.kind.s in ["content", "field", "pack"] && Hex64(Norm(e.ref.s))
  }

  ghost predicate Permissions(v: Value) {
    v.Arr? && v.items != [] && forall p | p in v.items :: p.Str? && PermissionText(Norm(p.s))
  }

  /** What is wrong with a capability that can be read. */
  ghost predicate Disorder(fault: Cap.Fault, c: Cap.Capability, hash: Cap.HashFn) {
    || (fault.ExpiresNotAfterIssue? && StrLeq(c.expiresAt, c.issuedAt))
    || (fault.NotBeforeTooEarly? && c.notBefore.Some? && !StrLeq(c.issuedAt, c.notBefore.value))
    || (fault.NotBeforeTooLate? && c.notBefore.Some? && StrLeq(c.expiresAt, c.notBefore.value))
    || (fault.HashMismatch? && c.capabilityHash != hash(Cap.Payload(
          c.parentConsentHash, c.subject, c.grantee, c.scope, c.permissions, c.issuedAt, c.expiresAt, c.notBefore,
          c.marketMakerId)))
  }

  /** A record is refused either for one thing that keeps it from being read, or, once read, for exactly those of three
      disorders of time and a wrong hash that it has. */
  lemma RejectionTells(input: Cap.CapabilityInput, hash: Cap.HashFn)
    requires Cap.VerifyCapability(input, hash).Rejected?
    ensures var faults := Cap.VerifyCapability(input, hash).faults;
      match Cap.ParseCapability(input)
      case Err(fault) => faults == [fault] && Unreadable(fault, input)
      case Ok(c) =>
        && (forall fault :: !Unreadable(fault, input))
        && Cap.Spells(input, c) && faults != []
        && forall fault :: fault in faults <==> Disorder(fault, c, hash)
  {
    ReadingTells(input);
    if Cap.ParseCapability(input).Ok? {
      DisordersTell(input, Cap.ParseCapability(input).value, hash);
    }
  }

  /** A record cannot be read exactly if something is wrong with it, and then that is the fault. */
  lemma ReadingTells(input: Cap.CapabilityInput)
    ensures match Cap.ParseCapability(input)
      case Err(fault) => Unreadable(fault, input)
      case Ok(_) => forall fault :: !Unreadable(fault, input)
  {
    if input.CapabilityRecord? {
      ScopeReads(input.scope);
    }
  }

  lemma ScopeReads(v: Value)
    ensures Cap.ScopeParses(v) <==> Entries(v)
  {
  }

  lemma DisordersTell(input: Cap.CapabilityInput, c: Cap.Capability, hash: Cap.HashFn)
    requires Cap.ParseCapability(input) == Ok(c) && Cap.VerifyCapability(input, hash).Rejected?
    ensures Cap.Spells(input, c) && Cap.VerifyCapability(input, hash).faults != []
    ensures forall fault :: fault in Cap.VerifyCapability(input, hash).faults <==> Disorder(fault, c, hash)
  {
    Cap.ParsedSpells(input, c);
    Cap.ParsedScopeIsCanonical(input.scope);
    Cap.ParsedPermissionsAreCanonical(input.permissions);
    Cap.HashCovers(c, hash);
    FaultsListed(c, hash);
  }

  lemma FaultsListed(c: Cap.Capability, hash: Cap.HashFn)
    ensures forall fault :: fault in Cap.TemporalFaults(c) <==> fault != Cap.HashMismatch && Disorder(fault, c, hash)
  {
  }

  /** What each error of a mint says. */
  ghost predicate MintFails(error: Cap.MintError, m: Cap.MintInput, parseDate: DateParse) {
    if !IsoSecond(m.issuedAt) then error.IssuedAtMalformed?
    else if parseDate(m.issuedAt) == None then error.IssuedAtUnparsable?
    else if C.NormalizeConsent(m.consent, parseDate).Err? then error.ConsentUnreadable?
    else
      var consent := C.NormalizeConsent(m.consent, parseDate).value;
      var state := C.EvaluateConsentState(consent, parseDate(m.issuedAt).value, m.consentPort, parseDate);
      if !C.ValidConsent(consent, parseDate) then error.ConsentInvalid?
      else if state != C.Active then error == Cap.ConsentNotActive(state)
      else RequestRefused(error, m, consent) || TimesRefused(error, m, consent)
  }

  ghost predicate RequestRefused(error: Cap.MintError, m: Cap.MintInput, consent: C.Consent) {
    || (error.EmptyScope? && m.scope == [])
    || (error.EmptyPermissions? && m.permissions == [])
    || (error.ScopeNotSubset? && exists e :: e in m.scope && Scope(e.kind, Norm(e.ref)) !in consent.scope)
    || (error.PermissionsNotSubset? && exists p :: p in m.permissions && Norm(p) !in consent.permissions)
    || (error.MarketMakerMismatch? && m.marketMakerId.Some? && consent.marketMakerId.Some?
        && m.marketMakerId.value != consent.marketMakerId.value)
    || (error.MarketMakerIntroduced? && m.marketMakerId.Some? && consent.marketMakerId == None)
  }

  ghost predicate TimesRefused(error: Cap.MintError, m: Cap.MintInput, consent: C.Consent) {
    var expiresAt := if m.expiresAt.Some? then m.expiresAt else consent.expiresAt;
    if expiresAt == None then error.ExpiryMissing?
    else
      || (error.ExpiryMalformed? && !IsoSecond(expiresAt.value))
      || (error.ExpiryNotAfterIssue? && StrLeq(expiresAt.value, m.issuedAt))
      || (error.ExpiryBeyondConsent? && consent.expiresAt.Some?
          && !StrLeq(expiresAt.value, consent.expiresAt.value))
      || (error.NotBeforeMalformed? && m.notBefore.Some? && !IsoSecond(m.notBefore.value))
      || (error.NotBeforeBeforeIssue? && m.notBefore.Some? && !StrLeq(m.issuedAt, m.notBefore.value))
      || (error.NotBeforeAfterExpiry? && m.notBefore.Some? && StrLeq(expiresAt.value, m.notBefore.value))
  }

  lemma RequestRefusalTells(m: Cap.MintInput, consent: C.Consent)
    requires forall e | e in consent.scope :: Cap.ValidEntry(e)
    ensures Cap.MintRequestError(m, consent).Some? ==>
      RequestRefused(Cap.MintRequestError(m, consent).value, m, consent)
  {
    Cap.MintedScopeWithin(m.scope, consent.scope);
    Cap.MintedPermissionsWithin(m.permissions, consent.permissions);
  }

  lemma TimeRefusalTells(m: Cap.MintInput, consent: C.Consent, expiresAt: string)
    requires Some(expiresAt) == if m.expiresAt.Some? then m.expiresAt else consent.expiresAt
    ensures Cap.MintTimeError(m, expiresAt, consent.expiresAt).Some? ==>
      TimesRefused(Cap.MintTimeError(m, expiresAt, consent.expiresAt).value, m, consent)
  {
  }

  /** A refused mint says what is wrong. */
  lemma MintRefusalTells(m: Cap.MintInput, hash: Cap.HashFn, parseDate: DateParse)
    requires Cap.MintCapability(m, hash, parseDate).Err?
    ensures MintFails(Cap.MintCapability(m, hash, parseDate).error, m, parseDate)
  {
    if IsoSecond(m.issuedAt) && parseDate(m.issuedAt).Some? {
      var ready := Cap.AssertConsentReady(m.consent, parseDate(m.issuedAt).value, m.consentPort, parseDate);
      if ready.Ok? {
        Cap.ReadyConsent(m.consent, parseDate(m.issuedAt).value, m.consentPort, parseDate);
        RequestRefusalTells(m, ready.value);
        if m.expiresAt.Some? {
          TimeRefusalTells(m, ready.value, m.expiresAt.value);
        } else if ready.value.expiresAt.Some? {
          TimeRefusalTells(m, ready.value, ready.value.expiresAt.value);
        }
      }
    }
  }

  // ---------- tokens ----------

  /** What each fault of the lists of a token says. */
  ghost predicate ListWrong(fault: Tok.TokenError, scope: seq<Scope>, permissions: seq<string>) {
    || (fault.EmptyScope? && scope == [])
    || (fault.TooManyScopes? && |scope| > 10000)
    || (fault.BadScopeKind? && fault.index < |scope| && scope[fault.index].kind !in ["content", "field", "pack"])
    || (fault.BadScopeRef? && fault.index < |scope| && !Hex64(scope[fault.index].ref))
    || (fault.DuplicateScope? && fault.index < |scope|
        && exists j :: 0 <= j < fault.index && scope[j] == scope[fault.index])
    || (fault.EmptyPermissions? && permissions == [])
    || (fault.TooManyPermissions? && |permissions| > 100)
    || (fault.BadPermission? && fault.index < |permissions|
        && permissions[fault.index] !in ["read", "store", "share", "derive", "aggregate"])
    || (fault.DuplicatePermission? && fault.index < |permissions|
        && exists j :: 0 <= j < fault.index && permissions[j] == permissions[fault.index])
  }

  lemma {:induction false} ScopeFaultTells(scope: seq<Scope>, permissions: seq<string>, n: nat)
    requires n <= |scope|
    ensures match Tok.ScopeFaultUpTo(scope, n)
      case None => forall i | 0 <= i < n :: Tok.WellFormed(scope[i])
      case Some(fault) => ListWrong(fault, scope, permissions)
  {
    if n > 0 {
      ScopeFaultTells(scope, permissions, n - 1);
      if Tok.ScopeFaultUpTo(scope, n - 1).None? && Key(scope[n - 1]) in Keys(scope[..n - 1]) {
        var earlier := scope[..n - 1];
        assert forall x | x in earlier :: Tok.WellFormed(x);
        KeyMember(scope[n - 1], earlier);
        var j :| 0 <= j < n - 1 && earlier[j] == scope[n - 1];
        assert scope[j] == scope[n - 1];
      }
    }
  }

  lemma {:induction false} PermissionFaultTells(scope: seq<Scope>, permissions: seq<string>, n: nat)
    requires n <= |permissions|
    ensures match Tok.PermissionFaultUpTo(permissions, n)
      case None => forall i | 0 <= i < n :: Tok.CanonicalAction(permissions[i])
      case Some(fault) => ListWrong(fault, scope, permissions)
  {
    if n > 0 {
      PermissionFaultTells(scope, permissions, n - 1);
    }
  }

  lemma ListFaultTells(scope: seq<Scope>, permissions: seq<string>)
    ensures Tok.ScopeFault(scope).Some? ==> ListWrong(Tok.ScopeFault(scope).value, scope, permissions)
    ensures Tok.PermissionFault(permissions).Some? ==>
      ListWrong(Tok.PermissionFault(permissions).value, scope, permissions)
  {
    ScopeFaultTells(scope, permissions, |scope|);
    PermissionFaultTells(scope, permissions, |permissions|);
  }

  ghost predicate DidText(s: string) {
    8 <= |s| <= 2048 && Did(s)
  }

  ghost predicate ShownBy(id: Option<string>) {
    id.Some? ==> Tok.MarketMakerText(id.value)
  }

  /** What each fault says that mint and verification share: of the times, the consent and the containment. */
  ghost predicate TimesWrong(
    fault: Tok.TokenError, consent: C.Consent, issuedAt: string, notBefore: Option<string>, expiresAt: string)
  {
    || (fault.BadIssuedAt? && !IsoSecond(issuedAt))
    || (fault.BadExpiresAt? && !IsoSecond(expiresAt))
    || (fault.BadNotBefore? && notBefore.Some? && !IsoSecond(notBefore.value))
    || (fault.ExpiryNotAfterIssue? && StrLeq(expiresAt, issuedAt))
    || (fault.StartBeforeIssue? && notBefore.Some? && !StrLeq(issuedAt, notBefore.value))
    || (fault.StartNotBeforeExpiry? && notBefore.Some? && StrLeq(expiresAt, notBefore.value))
    || (fault.IssuedBeforeConsent? && !StrLeq(consent.issuedAt, issuedAt))
    || (fault.OutlivesConsent? && consent.expiresAt.Some? && !StrLeq(expiresAt, consent.expiresAt.value))
    || (fault.StartBeforeConsent? && notBefore.Some? && !StrLeq(consent.issuedAt, notBefore.value))
  }

  /** What is asked for goes beyond the consent, or the consent itself will not do. */
  ghost predicate ConsentWrong(
    fault: Tok.TokenError, consent: C.Consent, scope: seq<Scope>, permissions: seq<string>)
  {
    || (fault.ConsentNotGrant? && consent.action != C.Grant)
    || (fault.BadConsentMarketMaker? && !ShownBy(consent.marketMakerId))
    || (fault.ScopeEscalation? && exists e :: e in scope && e !in consent.scope)
    || (fault.PermissionEscalation? && exists p :: p in permissions && p !in consent.permissions)
  }

  lemma TimeFaultTells(consent: C.Consent, issuedAt: string, notBefore: Option<string>, expiresAt: string)
    ensures Tok.WindowFault(issuedAt, notBefore, expiresAt).Some? ==>
      TimesWrong(Tok.WindowFault(issuedAt, notBefore, expiresAt).value, consent, issuedAt, notBefore, expiresAt)
    ensures Tok.DerivationFault(consent, issuedAt, notBefore, expiresAt).Some? ==> TimesWrong(
      Tok.DerivationFault(consent, issuedAt, notBefore, expiresAt).value, consent, issuedAt, notBefore, expiresAt)
  {
  }

  lemma ContainmentTells(consent: C.Consent, scope: seq<Scope>, permissions: seq<string>)
    ensures Tok.ContainmentFault(consent, scope, permissions).Some? ==>
      ConsentWrong(Tok.ContainmentFault(consent, scope, permissions).value, consent, scope, permissions)
  {
    if e :| e in scope && Key(e) !in Keys(consent.scope) {
      assert e !in consent.scope;
    }
  }

  /** What each fault of a token says that does not stand. */
  ghost predicate TokenWrong(fault: Tok.TokenError, t: Tok.Token, consent: C.Consent, hash: Tok.HashFn) {
    || FieldWrong(fault, t) || SealWrong(fault, t, hash) || BindingWrong(fault, t, consent)
    || ListWrong(fault, t.scope, t.permissions)
    || TimesWrong(fault, consent, t.issuedAt, t.notBefore, t.expiresAt)
    || ConsentWrong(fault, consent, t.scope, t.permissions)
  }

  ghost predicate FieldWrong(fault: Tok.TokenError, t: Tok.Token) {
    || (fault.BadVersion? && !VersionText(t.version))
    || (fault.BadSubject? && !DidText(t.subject))
    || (fault.BadGrantee? && !DidText(t.grantee))
    || (fault.BadConsentRef? && !Hex64(t.consentRef))
    || (fault.BadTokenId? && !Hex64(t.tokenId))
    || (fault.BadMarketMaker? && !ShownBy(t.marketMakerId))
  }

  ghost predicate SealWrong(fault: Tok.TokenError, t: Tok.Token, hash: Tok.HashFn) {
    (fault.BadHash? && !Hex64(t.capabilityHash)) || (fault.HashMismatch? && !Tok.SealHolds(t, hash))
  }

  ghost predicate BindingWrong(fault: Tok.TokenError, t: Tok.Token, consent: C.Consent) {
    || (fault.WrongConsent? && t.consentRef != consent.consentHash)
    || (fault.WrongSubject? && t.subject != consent.subject)
    || (fault.WrongGrantee? && t.grantee != consent.grantee)
    || (fault.MarketMakerMismatch? && t.marketMakerId != consent.marketMakerId)
  }

  lemma FieldFaultTells(t: Tok.Token, consent: C.Consent, hash: Tok.HashFn)
    ensures Tok.FieldFault(t).Some? ==> TokenWrong(Tok.FieldFault(t).value, t, consent, hash)
  {
    ListFaultTells(t.scope, t.permissions);
  }

  lemma SealFaultTells(t: Tok.Token, consent: C.Consent, hash: Tok.HashFn)
    ensures Tok.HashFault(t, hash).Some? ==> TokenWrong(Tok.HashFault(t, hash).value, t, consent, hash)
    ensures Tok.BindingFault(t, consent).Some? ==> TokenWrong(Tok.BindingFault(t, consent).value, t, consent, hash)
  {
  }

  /** A token that does not stand is refused for something that is wrong with it. */
  lemma TokenRefusalTells(t: Tok.Token, consent: C.Consent, hash: Tok.HashFn)
    requires Tok.StandingFault(t, consent, hash).Some?
    ensures TokenWrong(Tok.StandingFault(t, consent, hash).value, t, consent, hash)
  {
    FieldFaultTells(t, consent, hash);
    SealFaultTells(t, consent, hash);
    TimeFaultTells(consent, t.issuedAt, t.notBefore, t.expiresAt);
    ContainmentTells(consent, t.scope, t.permissions);
  }

  /** What each fault of a request to mint a token says. */
  ghost predicate RequestWrong(fault: Tok.TokenError, consent: C.Consent, m: Tok.MintRequest) {
    || PartiesWrong(fault, consent, m)
    || ListWrong(fault, m.scope, m.permissions)
    || TimesWrong(fault, consent, m.now, m.notBefore, m.expiresAt)
    || ConsentWrong(fault, consent, m.scope, m.permissions)
  }

  ghost predicate PartiesWrong(fault: Tok.TokenError, consent: C.Consent, m: Tok.MintRequest) {
    || (fault.BadSubject? && !DidText(consent.subject))
    || (fault.BadGrantee? && !DidText(consent.grantee))
    || (fault.BadConsentRef? && !Hex64(consent.consentHash))
    || (fault.BadTokenId? && !Hex64(m.tokenId))
    || (fault.BadMarketMaker? && !ShownBy(m.marketMakerId))
    || (fault.MarketMakerMismatch? && m.marketMakerId.Some? && consent.marketMakerId.Some?
        && m.marketMakerId.value != consent.marketMakerId.value)
    || (fault.MarketMakerIntroduced? && m.marketMakerId.Some? && consent.marketMakerId == None)
  }

  lemma MintFieldTells(consent: C.Consent, m: Tok.MintRequest)
    ensures Tok.MintFieldFault(consent, m).Some? ==> RequestWrong(Tok.MintFieldFault(consent, m).value, consent, m)
    ensures Tok.MintMarketMakerFault(consent, m).Some? ==>
      RequestWrong(Tok.MintMarketMakerFault(consent, m).value, consent, m)
  {
    ListFaultTells(m.scope, m.permissions);
  }

  /** A refused mint of a token says what is wrong. */
  lemma TokenMintRefusalTells(consent: C.Consent, m: Tok.MintRequest, hash: Tok.HashFn)
    requires Tok.MintCapabilityToken(consent, m, hash).Err?
    ensures RequestWrong(Tok.MintCapabilityToken(consent, m, hash).error, consent, m)
  {
    MintFieldTells(consent, m);
    TimeFaultTells(consent, m.now, m.notBefore, m.expiresAt);
    ContainmentTells(consent, m.scope, m.permissions);
  }
}
