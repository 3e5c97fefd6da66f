/** Single-use capability tokens: minting from a consent, validation, and verification against the in-memory
    nonce and revocation registries. */
module CapabilityToken {
  import opened Options
  import opened Text
  import opened Sorting
  import opened Values
  import C = Consent

  datatype Token = Token(
    version: string,
    subject: string,
    grantee: string,
    consentRef: string,
    scope: seq<Scope>,
    permissions: seq<string>,
    marketMakerId: Option<string>,
    issuedAt: string,
    notBefore: Option<string>,
    expiresAt: string,
    tokenId: string,
    capabilityHash: string)

  datatype TokenError =
    | ConsentNotGrant
    | BadVersion
    | BadSubject
    | BadGrantee
    | BadConsentRef
    | EmptyScope
    | TooManyScopes
    | BadScopeKind(index: nat)
    | BadScopeRef(index: nat)
    | DuplicateScope(index: nat)
    | EmptyPermissions
    | TooManyPermissions
    | BadPermission(index: nat)
    | DuplicatePermission(index: nat)
    | BadIssuedAt
    | BadExpiresAt
    | BadTokenId
    | BadMarketMaker
    | BadConsentMarketMaker
    | BadNotBefore
    | MarketMakerMismatch
    | MarketMakerIntroduced
    | ExpiryNotAfterIssue
    | StartBeforeIssue
    | StartNotBeforeExpiry
    | IssuedBeforeConsent
    | OutlivesConsent
    | StartBeforeConsent
    | ScopeEscalation
    | PermissionEscalation
    | BadHash
    | HashMismatch
    | WrongConsent
    | WrongSubject
    | WrongGrantee
    | Expired
    | NotYetValid
    | TokenRevoked
    | Replayed

  // ---------- the canonical payload and its hash ----------

  datatype Payload = Payload(
    version: string, subject: string, grantee: string, consentRef: string, scope: seq<Scope>, permissions: seq<string>,
    marketMakerId: Option<string>, issuedAt: string, notBefore: Option<string>, expiresAt: string, tokenId: string)

  /** Some hash of the canonical text of a payload. */
  type HashFn = Digest<Payload>

  function CanonicalPayload(t: Token): Payload {
    Payload(t.version, t.subject, t.grantee, t.consentRef, Sort(t.scope, ScopeLeq), Sort(t.permissions, StrLeq),
            t.marketMakerId, t.issuedAt, t.notBefore, t.expiresAt, t.tokenId)
  }

  function HashOf(t: Token, hash: HashFn): string {
    hash(CanonicalPayload(t))
  }

  // ---------- field checks ----------

  predicate DidField(s: string) {
    8 <= |s| <= 2048 && Did(s)
  }

  predicate MarketMakerChar(c: char) {
    LowerAlpha(c) || Digit(c) || c == '.' || c == '_' || c == '-'
  }

  /** One to 128 lower-case letters, digits, dots, underscores or hyphens, the first a letter or digit. */
  predicate MarketMakerText(s: string) {
    && 1 <= |s| <= 128
    && (LowerAlpha(s[0]) || Digit(s[0]))
    && forall i | 0 <= i < |s| :: MarketMakerChar(s[i])
  }

  predicate MarketMakerField(id: Option<string>) {
    id.Some? ==> MarketMakerText(id.value)
  }

  predicate CanonicalAction(action: string) {
    action in ["read", "store", "share", "derive", "aggregate"]
  }

  predicate WellFormed(x: Scope) {
    ValidKind(x.kind) && Hex64(x.ref)
  }

  function ScopeFaultAt(scope: seq<Scope>, i: nat): Option<TokenError>
    requires i < |scope|
  {
    if !ValidKind(scope[i].kind) then Some(BadScopeKind(i))
    else if !Hex64(scope[i].ref) then Some(BadScopeRef(i))
    else if Key(scope[i]) in Keys(scope[..i]) then Some(DuplicateScope(i))
    else None
  }

  /** The first fault among the first `n` entries. */
  function ScopeFaultUpTo(scope: seq<Scope>, n: nat): Option<TokenError>
    requires n <= |scope|
  {
    if n == 0 then None
    else
      var earlier := ScopeFaultUpTo(scope, n - 1);
      if earlier.Some? then earlier else ScopeFaultAt(scope, n - 1)
  }

  function ScopeFault(scope: seq<Scope>): Option<TokenError> {
    if scope == [] then Some(EmptyScope)
    else if |scope| > C.MAX_SCOPE_ENTRIES then Some(TooManyScopes)
    else ScopeFaultUpTo(scope, |scope|)
  }

  function PermissionFaultAt(permissions: seq<string>, i: nat): Option<TokenError>
    requires i < |permissions|
  {
    if !CanonicalAction(permissions[i]) then Some(BadPermission(i))
    else if permissions[i] in permissions[..i] then Some(DuplicatePermission(i))
    else None
  }

  function PermissionFaultUpTo(permissions: seq<string>, n: nat): Option<TokenError>
    requires n <= |permissions|
  {
    if n == 0 then None
    else
      var earlier := PermissionFaultUpTo(permissions, n - 1);
      if earlier.Some? then earlier else PermissionFaultAt(permissions, n - 1)
  }

  function PermissionFault(permissions: seq<string>): Option<TokenError> {
    if permissions == [] then Some(EmptyPermissions)
    else if |permissions| > C.MAX_PERMISSIONS then Some(TooManyPermissions)
    else PermissionFaultUpTo(permissions, |permissions|)
  }

  lemma {:induction false} LaterFault(scope: seq<Scope>, i: nat, n: nat)
    requires i < n <= |scope| && ScopeFaultUpTo(scope, i).None?
    requires ScopeFaultAt(scope, i).Some?
    ensures ScopeFaultUpTo(scope, n) == ScopeFaultAt(scope, i)
  {
    if n > i + 1 {
      LaterFault(scope, i, n - 1);
    }
  }

  lemma {:induction false} LaterPermissionFault(permissions: seq<string>, i: nat, n: nat)
    requires i < n <= |permissions| && PermissionFaultUpTo(permissions, i).None?
    requires PermissionFaultAt(permissions, i).Some?
    ensures PermissionFaultUpTo(permissions, n) == PermissionFaultAt(permissions, i)
  {
    if n > i + 1 {
      LaterPermissionFault(permissions, i, n - 1);
    }
  }

  method ValidateScope(scope: seq<Scope>) returns (fault: Option<TokenError>)
    ensures fault == ScopeFault(scope)
  {
    if scope == [] {
      return Some(EmptyScope);
    }
    if |scope| > C.MAX_SCOPE_ENTRIES {
      return Some(TooManyScopes);
    }
    var seen: set<string> := {};
    for i := 0 to |scope|
      invariant seen == Keys(scope[..i])
      invariant ScopeFaultUpTo(scope, i).None?
    {
      var entry := scope[i];
      if ScopeFaultAt(scope, i).Some? {
        LaterFault(scope, i, |scope|);
      }
      if !ValidKind(entry.kind) {
        return Some(BadScopeKind(i));
      }
      if !Hex64(entry.ref) {
        return Some(BadScopeRef(i));
      }
      var key := Key(entry);
      if key in seen {
        return Some(DuplicateScope(i));
      }
      KeysNext(scope, i);
      seen := seen + {key};
    }
    fault := None;
  }

  lemma KeysNext(scope: seq<Scope>, i: nat)
    requires i < |scope|
    ensures Keys(scope[..i + 1]) == Keys(scope[..i]) + {Key(scope[i])}
  {
    assert scope[..i + 1] == scope[..i] + [scope[i]];
  }

  method ValidatePermissions(permissions: seq<string>) returns (fault: Option<TokenError>)
    ensures fault == PermissionFault(permissions)
  {
    if permissions == [] {
      return Some(EmptyPermissions);
    }
    if |permissions| > C.MAX_PERMISSIONS {
      return Some(TooManyPermissions);
    }
    var seen: set<string> := {};
    for i := 0 to |permissions|
      invariant forall p :: p in seen <==> p in permissions[..i]
      invariant PermissionFaultUpTo(permissions, i).None?
    {
      if PermissionFaultAt(permissions, i).Some? {
        LaterPermissionFault(permissions, i, |permissions|);
      }
      if !CanonicalAction(permissions[i]) {
        return Some(BadPermission(i));
      }
      if permissions[i] in seen {
        return Some(DuplicatePermission(i));
      }
      assert permissions[..i + 1] == permissions[..i] + [permissions[i]];
      seen := seen + {permissions[i]};
    }
    fault := None;
  }

  /** What the two list checks let through. */
  ghost predicate AllWellFormed(scope: seq<Scope>) {
    forall e | e in scope :: WellFormed(e)
  }

  ghost predicate ScopeOk(scope: seq<Scope>) {
    0 < |scope| <= C.MAX_SCOPE_ENTRIES && Distinct(scope) && AllWellFormed(scope)
  }

  ghost predicate PermissionsOk(permissions: seq<string>) {
    0 < |permissions| <= C.MAX_PERMISSIONS && Distinct(permissions) && forall p | p in permissions :: CanonicalAction(p)
  }

  lemma DistinctSnoc<T>(s: seq<T>, x: T)
    ensures Distinct(s + [x]) <==> Distinct(s) && x !in s
  {
    var all := s + [x];
    if Distinct(all) {
      forall i | 0 <= i < |s| ensures s[i] != x {
        assert all[i] != all[|s|];
      }
      forall i, j | 0 <= i < j < |s| ensures s[i] != s[j] {
        assert all[i] != all[j];
      }
    }
  }

  lemma {:induction false} NoScopeFault(scope: seq<Scope>, n: nat)
    requires n <= |scope|
    ensures ScopeFaultUpTo(scope, n).None? <==> Distinct(scope[..n]) && AllWellFormed(scope[..n])
  {
    if n > 0 {
      var front, last := scope[..n - 1], scope[n - 1];
      NoScopeFault(scope, n - 1);
      assert scope[..n] == front + [last];
      DistinctSnoc(front, last);
      AllWellFormedSnoc(front, last);
      if AllWellFormed(front) {
        KeyMember(last, front);
      }
    }
  }

  lemma AllWellFormedSnoc(front: seq<Scope>, last: Scope)
    ensures AllWellFormed(front + [last]) <==> AllWellFormed(front) && WellFormed(last)
  {
    var all := front + [last];
    assert all[|front|] == last;
    assert forall e | e in front :: e in all;
    assert forall e | e in all :: e in front || e == last;
  }

  lemma {:induction false} NoPermissionFault(permissions: seq<string>, n: nat)
    requires n <= |permissions|
    ensures PermissionFaultUpTo(permissions, n).None?
       <==> Distinct(permissions[..n]) && forall p | p in permissions[..n] :: CanonicalAction(p)
  {
    if n > 0 {
      var front, last := permissions[..n - 1], permissions[n - 1];
      NoPermissionFault(permissions, n - 1);
      assert permissions[..n] == front + [last];
      DistinctSnoc(front, last);
    }
  }

  /** The list checks pass exactly the non-empty, bounded lists of well-formed entries without repetition. */
  lemma ListFaults(scope: seq<Scope>, permissions: seq<string>)
    ensures ScopeFault(scope).None? <==> ScopeOk(scope)
    ensures PermissionFault(permissions).None? <==> PermissionsOk(permissions)
  {
    NoScopeFault(scope, |scope|);
    NoPermissionFault(permissions, |permissions|);
    assert scope[..|scope|] == scope && permissions[..|permissions|] == permissions;
  }

  // ---------- checks shared by minting and verification ----------

  /** Token times in order: issue, start, expiry. */
  function WindowFault(issuedAt: string, notBefore: Option<string>, expiresAt: string): Option<TokenError> {
    if StrLeq(expiresAt, issuedAt) then Some(ExpiryNotAfterIssue)
    else if notBefore.Some? && StrLt(notBefore.value, issuedAt) then Some(StartBeforeIssue)
    else if notBefore.Some? && StrLeq(expiresAt, notBefore.value) then Some(StartNotBeforeExpiry)
    else None
  }

  /** Token times inside the consent's. */
  function DerivationFault(consent: C.Consent, issuedAt: string, notBefore: Option<string>, expiresAt: string):
    Option<TokenError>
  {
    if StrLt(issuedAt, consent.issuedAt) then Some(IssuedBeforeConsent)
    else if consent.expiresAt.Some? && StrLt(consent.expiresAt.value, expiresAt) then Some(OutlivesConsent)
    else if notBefore.Some? && StrLt(notBefore.value, consent.issuedAt) then Some(StartBeforeConsent)
    else None
  }

  function ContainmentFault(consent: C.Consent, scope: seq<Scope>, permissions: seq<string>): Option<TokenError> {
    if exists e | e in scope :: Key(e) !in Keys(consent.scope) then Some(ScopeEscalation)
    else if exists p | p in permissions :: p !in consent.permissions then Some(PermissionEscalation)
    else None
  }

  // ---------- minting ----------

  datatype MintRequest = MintRequest(
    scope: seq<Scope>,
    permissions: seq<string>,
    expiresAt: string,
    now: string,
    notBefore: Option<string>,
    marketMakerId: Option<string>,
    tokenId: string)

  function OrElse(a: Option<TokenError>, b: Option<TokenError>): Option<TokenError> {
    if a.Some? then a else b
  }

  function MintFieldFault(consent: C.Consent, m: MintRequest): Option<TokenError> {
    if consent.action != C.Grant then Some(ConsentNotGrant)
    else if !DidField(consent.subject) then Some(BadSubject)
    else if !DidField(consent.grantee) then Some(BadGrantee)
    else if !Hex64(consent.consentHash) then Some(BadConsentRef)
    else if ScopeFault(m.scope).Some? then ScopeFault(m.scope)
    else if PermissionFault(m.permissions).Some? then PermissionFault(m.permissions)
    else if !IsoSecond(m.now) then Some(BadIssuedAt)
    else if !IsoSecond(m.expiresAt) then Some(BadExpiresAt)
    else if !Hex64(m.tokenId) then Some(BadTokenId)
    else if !MarketMakerField(m.marketMakerId) then Some(BadMarketMaker)
    else if !MarketMakerField(consent.marketMakerId) then Some(BadConsentMarketMaker)
    else if m.notBefore.Some? && !IsoSecond(m.notBefore.value) then Some(BadNotBefore)
    else None
  }

  function MintMarketMakerFault(consent: C.Consent, m: MintRequest): Option<TokenError> {
    if consent.marketMakerId.Some? then
      if m.marketMakerId.Some? && m.marketMakerId != consent.marketMakerId then Some(MarketMakerMismatch) else None
    else if m.marketMakerId.Some? then Some(MarketMakerIntroduced)
    else None
  }

  function MintFault(consent: C.Consent, m: MintRequest): Option<TokenError> {
    OrElse(MintFieldFault(consent, m),
    OrElse(MintMarketMakerFault(consent, m),
    OrElse(WindowFault(m.now, m.notBefore, m.expiresAt),
    OrElse(DerivationFault(consent, m.now, m.notBefore, m.expiresAt),
           ContainmentFault(consent, m.scope, m.permissions)))))
  }

  function Unsealed(consent: C.Consent, m: MintRequest): Token {
    Token("1.0", consent.subject, consent.grantee, consent.consentHash, m.scope, m.permissions, consent.marketMakerId,
          m.now, m.notBefore, m.expiresAt, m.tokenId, "")
  }

  function Sealed(t: Token, hash: HashFn): Token {
    t.(capabilityHash := HashOf(t, hash))
  }

  function MintCapabilityToken(consent: C.Consent, m: MintRequest, hash: HashFn): Result<Token, TokenError> {
    var fault := MintFault(consent, m);
    if fault.Some? then Err(fault.value) else Ok(Sealed(Unsealed(consent, m), hash))
  }

  // ---------- validation ----------

  function FieldFault(t: Token): Option<TokenError> {
    if !VersionText(t.version) then Some(BadVersion)
    else if !DidField(t.subject) then Some(BadSubject)
    else if !DidField(t.grantee) then Some(BadGrantee)
    else if !Hex64(t.consentRef) then Some(BadConsentRef)
    else if ScopeFault(t.scope).Some? then ScopeFault(t.scope)
    else if PermissionFault(t.permissions).Some? then PermissionFault(t.permissions)
    else if !IsoSecond(t.issuedAt) then Some(BadIssuedAt)
    else if !IsoSecond(t.expiresAt) then Some(BadExpiresAt)
    else if !Hex64(t.tokenId) then Some(BadTokenId)
    else if !MarketMakerField(t.marketMakerId) then Some(BadMarketMaker)
    else if t.notBefore.Some? && !IsoSecond(t.notBefore.value) then Some(BadNotBefore)
    else None
  }

  function HashFault(t: Token, hash: HashFn): Option<TokenError> {
    if !Hex64(t.capabilityHash) then Some(BadHash)
    else if t.capabilityHash != HashOf(t, hash) then Some(HashMismatch)
    else None
  }

  function ValidationFault(t: Token, hash: HashFn): Option<TokenError> {
    OrElse(FieldFault(t), OrElse(WindowFault(t.issuedAt, t.notBefore, t.expiresAt), HashFault(t, hash)))
  }

  // ---------- verification ----------

  function BindingFault(t: Token, consent: C.Consent): Option<TokenError> {
    if t.consentRef != consent.consentHash then Some(WrongConsent)
    else if consent.action != C.Grant then Some(ConsentNotGrant)
    else if t.subject != consent.subject then Some(WrongSubject)
    else if t.grantee != consent.grantee then Some(WrongGrantee)
    else if !MarketMakerField(consent.marketMakerId) then Some(BadConsentMarketMaker)
    else if consent.marketMakerId != t.marketMakerId then Some(MarketMakerMismatch)
    else None
  }

  /** Everything verification checks that neither the clock nor a registry can change. */
  function StandingFault(t: Token, consent: C.Consent, hash: HashFn): Option<TokenError> {
    OrElse(ValidationFault(t, hash),
    OrElse(BindingFault(t, consent),
    OrElse(ContainmentFault(consent, t.scope, t.permissions),
           DerivationFault(consent, t.issuedAt, t.notBefore, t.expiresAt))))
  }

  function EffectiveStart(t: Token): string {
    if t.notBefore.Some? then t.notBefore.value else t.issuedAt
  }

  /** Issued, started if there is a start, and not expired. */
  ghost predicate InForce(t: Token, now: string) {
    && StrLeq(t.issuedAt, now) && (t.notBefore.Some? ==> StrLeq(t.notBefore.value, now))
    && StrLeq(now, t.expiresAt)
  }

  function ClockFault(t: Token, now: string): Option<TokenError> {
    if StrLt(t.expiresAt, now) then Some(Expired)
    else if StrLt(now, EffectiveStart(t)) then Some(NotYetValid)
    else None
  }

  /** The two in-memory registries. */
  datatype Registries = Registries(seen: set<string>, revoked: set<string>)

  function VerifyFault(t: Token, consent: C.Consent, now: string, r: Registries, hash: HashFn): Option<TokenError> {
    OrElse(StandingFault(t, consent, hash),
    OrElse(ClockFault(t, now),
           if t.capabilityHash in r.revoked then Some(TokenRevoked)
           else if t.tokenId in r.seen then Some(Replayed)
           else None))
  }

  // ---------- the checks written out ----------

  /** Fields of the right shape. */
  ghost predicate WellShaped(t: Token) {
    && VersionText(t.version) && Hex64(t.consentRef) && Hex64(t.tokenId)
    && 8 <= |t.subject| <= 2048 && Did(t.subject) && 8 <= |t.grantee| <= 2048 && Did(t.grantee)
    && ScopeOk(t.scope) && PermissionsOk(t.permissions)
    && IsoSecond(t.issuedAt) && IsoSecond(t.expiresAt) && (t.notBefore.Some? ==> IsoSecond(t.notBefore.value))
    && (t.marketMakerId.Some? ==> MarketMakerText(t.marketMakerId.value))
  }

  /** Times in order. */
  ghost predicate Ordered(t: Token) {
    && StrLt(t.issuedAt, t.expiresAt)
    && (t.notBefore.Some? ==> StrLeq(t.issuedAt, t.notBefore.value) && StrLt(t.notBefore.value, t.expiresAt))
  }

  /** The hash is that of all other fields, the two lists in order. */
  ghost predicate SealHolds(t: Token, hash: HashFn) {
    t.capabilityHash == hash(Payload(
      t.version, t.subject, t.grantee, t.consentRef, Sort(t.scope, ScopeLeq), Sort(t.permissions, StrLeq),
      t.marketMakerId, t.issuedAt, t.notBefore, t.expiresAt, t.tokenId))
  }

  /** Drawn from the consent: its parties, within its scope, permissions and time. */
  ghost predicate DrawnFrom(t: Token, consent: C.Consent) {
    && consent.action == C.Grant && t.consentRef == consent.consentHash
    && t.subject == consent.subject && t.grantee == consent.grantee && t.marketMakerId == consent.marketMakerId
    && (forall e | e in t.scope :: e in consent.scope) && (forall p | p in t.permissions :: p in consent.permissions)
    && StrLeq(consent.issuedAt, t.issuedAt)
    && (consent.expiresAt.Some? ==> StrLeq(t.expiresAt, consent.expiresAt.value))
  }

  ghost predicate Stands(t: Token, consent: C.Consent, hash: HashFn) {
    WellShaped(t) && Ordered(t) && SealHolds(t, hash) && DrawnFrom(t, consent)
  }

  lemma FieldsAreShaped(t: Token)
    ensures FieldFault(t).None? <==> WellShaped(t)
  {
    ListFaults(t.scope, t.permissions);
  }

  lemma WindowIsOrdered(t: Token)
    ensures WindowFault(t.issuedAt, t.notBefore, t.expiresAt).None? <==> Ordered(t)
  {
    if t.notBefore.Some? {
      StrLeqTotal(t.issuedAt, t.notBefore.value);
    }
  }

  lemma ContainedEntries(scope: seq<Scope>, permissions: seq<string>, consent: C.Consent)
    requires AllWellFormed(scope)
    ensures ContainmentFault(consent, scope, permissions).None? <==>
      (forall e | e in scope :: e in consent.scope) && (forall p | p in permissions :: p in consent.permissions)
  {
    forall e | e in scope ensures Key(e) in Keys(consent.scope) <==> e in consent.scope {
      if Key(e) in Keys(consent.scope) {
        var x :| x in consent.scope && Key(x) == Key(e);
        ValidKindPlain(e.kind);
        HexPlain(e.ref);
        KeyInjective(e, x);
      }
    }
  }

  lemma DerivedWithin(t: Token, consent: C.Consent)
    requires Ordered(t)
    ensures DerivationFault(consent, t.issuedAt, t.notBefore, t.expiresAt).None? <==>
      && StrLeq(consent.issuedAt, t.issuedAt)
      && (consent.expiresAt.Some? ==> StrLeq(t.expiresAt, consent.expiresAt.value))
  {
    StrLeqTotal(consent.issuedAt, t.issuedAt);
    if consent.expiresAt.Some? {
      StrLeqTotal(t.expiresAt, consent.expiresAt.value);
    }
    if t.notBefore.Some? && StrLeq(consent.issuedAt, t.issuedAt) {
      StrLeqTransitive(consent.issuedAt, t.issuedAt, t.notBefore.value);
    }
  }

  /** What verification asks of a token whatever the time and the registries. */
  lemma StandingIff(t: Token, consent: C.Consent, hash: HashFn)
    ensures StandingFault(t, consent, hash).None? <==> Stands(t, consent, hash)
  {
    FieldsAreShaped(t);
    WindowIsOrdered(t);
    if WellShaped(t) && Ordered(t) {
      ContainedEntries(t.scope, t.permissions, consent);
      DerivedWithin(t, consent);
    }
  }

  lemma ClockAllows(t: Token, now: string)
    requires Ordered(t)
    ensures ClockFault(t, now).None? <==> InForce(t, now)
  {
    StrLeqTotal(now, t.expiresAt);
    StrLeqTotal(t.issuedAt, now);
    if t.notBefore.Some? {
      StrLeqTotal(t.notBefore.value, now);
      if StrLeq(t.notBefore.value, now) {
        StrLeqTransitive(t.issuedAt, t.notBefore.value, now);
      }
    }
  }

  /** What minting writes, and when it does: the token asked for, if it then stands on the consent and no other market
      maker was named. */
  lemma MintedIff(consent: C.Consent, m: MintRequest, t: Token, hash: HashFn)
    ensures MintCapabilityToken(consent, m, hash) == Ok(t) <==>
      && Stands(t, consent, hash) && t.version == "1.0"
      && t.scope == m.scope && t.permissions == m.permissions && t.tokenId == m.tokenId
      && t.issuedAt == m.now && t.notBefore == m.notBefore && t.expiresAt == m.expiresAt
      && (m.marketMakerId.Some? ==> m.marketMakerId == consent.marketMakerId)
  {
    StandingIff(t, consent, hash);
    StandingIsMinted(t, consent, hash);
    MarketMakerAside(consent, m);
    if MintCapabilityToken(consent, m, hash) == Ok(t) {
      MintedRequest(consent, m, hash);
    }
    assert RequestOf(t) == MintRequest(t.scope, t.permissions, t.expiresAt, t.issuedAt, t.notBefore, None, t.tokenId);
  }

  /** Naming the consent's market maker or none makes no difference, and naming another is refused. */
  lemma MarketMakerAside(consent: C.Consent, m: MintRequest)
    ensures MintFault(consent, m).None? <==>
      && MintFault(consent, m.(marketMakerId := None)).None?
      && (m.marketMakerId.Some? ==> m.marketMakerId == consent.marketMakerId)
  {
  }

  /** What is wrong with a standing token at an instant: past its expiry, before its start, revoked, or seen. */
  lemma RefusalTells(t: Token, consent: C.Consent, now: string, r: Registries, hash: HashFn)
    requires Stands(t, consent, hash)
    ensures var fault := VerifyFault(t, consent, now, r, hash);
      && (fault == None <==> InForce(t, now) && t.capabilityHash !in r.revoked && t.tokenId !in r.seen)
      && (fault == Some(Expired) <==> StrLt(t.expiresAt, now))
      && (fault == Some(NotYetValid) <==>
            && StrLeq(now, t.expiresAt)
            && (if t.notBefore.Some? then StrLt(now, t.notBefore.value) else StrLt(now, t.issuedAt)))
      && (fault == Some(TokenRevoked) <==> InForce(t, now) && t.capabilityHash in r.revoked)
      && (fault == Some(Replayed) <==> InForce(t, now) && t.capabilityHash !in r.revoked && t.tokenId in r.seen)
  {
    StandingIff(t, consent, hash);
    ClockAllows(t, now);
    StrLeqTotal(now, t.expiresAt);
  }

  // ---------- minting against verification ----------

  /** The request that minted a token, as far as the token tells. */
  function RequestOf(t: Token): MintRequest {
    MintRequest(t.scope, t.permissions, t.expiresAt, t.issuedAt, t.notBefore, None, t.tokenId)
  }

  lemma SealedHash(t: Token, hash: HashFn)
    ensures CanonicalPayload(Sealed(t, hash)) == CanonicalPayload(t)
    ensures HashFault(Sealed(t, hash), hash).None?
  {
  }

  lemma MintedFields(consent: C.Consent, m: MintRequest)
    requires MintFault(consent, m).None?
    ensures FieldFault(Unsealed(consent, m)).None? && BindingFault(Unsealed(consent, m), consent).None?
  {
    OneDotZero();
  }

  lemma FieldsMintable(t: Token, consent: C.Consent)
    requires FieldFault(t).None? && BindingFault(t, consent).None?
    ensures MintFieldFault(consent, RequestOf(t)).None? && MintMarketMakerFault(consent, RequestOf(t)).None?
  {
  }

  /** Minting can produce a token from the consent exactly when the standing checks accept it and its version is the
      one minting writes: what verification tests against the parent is what minting enforced. */
  lemma StandingIsMinted(t: Token, consent: C.Consent, hash: HashFn)
    ensures MintCapabilityToken(consent, RequestOf(t), hash) == Ok(t)
       <==> StandingFault(t, consent, hash).None? && t.version == "1.0"
  {
    var m := RequestOf(t);
    var u := Unsealed(consent, m);
    SealedHash(u, hash);
    if StandingFault(t, consent, hash).None? && t.version == "1.0" {
      FieldsMintable(t, consent);
      assert u == t.(capabilityHash := "");
      assert CanonicalPayload(u) == CanonicalPayload(t);
    }
    if MintCapabilityToken(consent, m, hash) == Ok(t) {
      MintedFields(consent, m);
    }
  }

  /** A minted token is what its own fields, asked for, would mint. */
  lemma MintedRequest(consent: C.Consent, m: MintRequest, hash: HashFn)
    requires MintCapabilityToken(consent, m, hash).Ok?
    ensures var t := MintCapabilityToken(consent, m, hash).value;
      MintCapabilityToken(consent, RequestOf(t), hash) == Ok(t)
  {
  }

  /** Verification reads any version: a standing token sealed anew under another one stands as well, and no request
      mints it. */
  lemma ReversionedStands(t: Token, consent: C.Consent, hash: HashFn, version: string, m: MintRequest)
    requires StandingFault(t, consent, hash).None? && VersionText(version)
    ensures StandingFault(Sealed(t.(version := version), hash), consent, hash).None?
    ensures version != "1.0" ==> MintCapabilityToken(consent, m, hash) != Ok(Sealed(t.(version := version), hash))
  {
    SealedHash(t.(version := version), hash);
  }

  /** A token with another id, sealed anew. */
  function Reissued(t: Token, tokenId: string, hash: HashFn): Token {
    Sealed(t.(tokenId := tokenId), hash)
  }

  /** A standing token under another well-formed id stands as well, and is in force with the original. */
  lemma ReissuedStands(t: Token, consent: C.Consent, hash: HashFn, tokenId: string, now: string)
    requires StandingFault(t, consent, hash).None?
    ensures StandingFault(Reissued(t, tokenId, hash), consent, hash).None? <==> Hex64(tokenId)
    ensures InForce(Reissued(t, tokenId, hash), now) <==> InForce(t, now)
  {
    SealedHash(t.(tokenId := tokenId), hash);
    ReissuedFields(t, tokenId, hash);
  }

  lemma ReissuedFields(t: Token, tokenId: string, hash: HashFn)
    requires FieldFault(t).None?
    ensures FieldFault(Reissued(t, tokenId, hash)).None? <==> Hex64(tokenId)
  {
  }

  /** A minted token verifies exactly while it is in force, unrevoked and not yet presented. */
  lemma MintedVerifies(consent: C.Consent, m: MintRequest, hash: HashFn, now: string, r: Registries)
    requires MintCapabilityToken(consent, m, hash).Ok?
    ensures var t := MintCapabilityToken(consent, m, hash).value;
      && Stands(t, consent, hash)
      && (VerifyFault(t, consent, now, r, hash).None?
      <==> InForce(t, now) && t.capabilityHash !in r.revoked && t.tokenId !in r.seen)
  {
    var t := MintCapabilityToken(consent, m, hash).value;
    MintedRequest(consent, m, hash);
    StandingIsMinted(t, consent, hash);
    StandingIff(t, consent, hash);
    ClockAllows(t, now);
  }

  /** A token that stands is in force at its start and at its expiry, and only while its consent is. */
  lemma LifeWithinConsent(t: Token, consent: C.Consent, hash: HashFn, now: string)
    requires StandingFault(t, consent, hash).None?
    ensures InForce(t, if t.notBefore.Some? then t.notBefore.value else t.issuedAt) && InForce(t, t.expiresAt)
    ensures InForce(t, now) ==>
      && StrLeq(consent.issuedAt, now)
      && (consent.expiresAt.Some? ==> StrLeq(now, consent.expiresAt.value))
  {
    StandingIff(t, consent, hash);
    var start := if t.notBefore.Some? then t.notBefore.value else t.issuedAt;
    StrLeqTotal(start, start);
    StrLeqTotal(start, t.expiresAt);
    StrLeqTotal(t.expiresAt, t.expiresAt);
    StrLeqTotal(t.issuedAt, t.expiresAt);
    if InForce(t, now) {
      StrLeqTransitive(consent.issuedAt, t.issuedAt, now);
      if consent.expiresAt.Some? {
        StrLeqTransitive(now, t.expiresAt, consent.expiresAt.value);
      }
    }
  }

  /** The containment checks compare key texts; for what stands they are containment of the entries themselves,
      whatever the consent's own scope looks like. */
  lemma StandingAttenuates(t: Token, consent: C.Consent, hash: HashFn)
    requires StandingFault(t, consent, hash).None?
    ensures forall e | e in t.scope :: e in consent.scope
    ensures forall p | p in t.permissions :: p in consent.permissions
    ensures Distinct(t.scope) && Distinct(t.permissions)
  {
    StandingIff(t, consent, hash);
  }

  // ---------- respelling ----------

  ghost predicate Respelling(t: Token, u: Token) {
    && multiset(t.scope) == multiset(u.scope)
    && multiset(t.permissions) == multiset(u.permissions)
    && u == t.(scope := u.scope, permissions := u.permissions)
  }

  lemma RespelledHash(t: Token, u: Token, hash: HashFn)
    requires Respelling(t, u)
    ensures HashOf(t, hash) == HashOf(u, hash)
  {
    ScopeOrder();
    StringOrder();
    SortCanonical(t.scope, u.scope, ScopeLeq);
    SortCanonical(t.permissions, u.permissions, StrLeq);
    assert CanonicalPayload(t) == CanonicalPayload(u);
  }

  /** What the hash seals: two standing tokens under one hash are the same but for the order of their lists, or their
      two payloads differ and collide under the hash. */
  lemma SealBinds(t: Token, u: Token, hash: HashFn)
    requires SealHolds(t, hash) && SealHolds(u, hash) && t.capabilityHash == u.capabilityHash
    ensures
      var p := Payload(
        t.version, t.subject, t.grantee, t.consentRef, Sort(t.scope, ScopeLeq), Sort(t.permissions, StrLeq),
        t.marketMakerId, t.issuedAt, t.notBefore, t.expiresAt, t.tokenId);
      var q := Payload(
        u.version, u.subject, u.grantee, u.consentRef, Sort(u.scope, ScopeLeq), Sort(u.permissions, StrLeq),
        u.marketMakerId, u.issuedAt, u.notBefore, u.expiresAt, u.tokenId);
      Respelling(t, u) || (p != q && hash(p) == hash(q))
  {
    ScopeOrder();
    StringOrder();
    SortCorrect(t.scope, ScopeLeq);
    SortCorrect(u.scope, ScopeLeq);
    SortCorrect(t.permissions, StrLeq);
    SortCorrect(u.permissions, StrLeq);
  }

  lemma RespelledLists(t: Token, u: Token)
    requires Respelling(t, u) && ScopeFault(t.scope).None? && PermissionFault(t.permissions).None?
    ensures ScopeFault(u.scope).None? && PermissionFault(u.permissions).None?
  {
    ListFaults(t.scope, t.permissions);
    ListFaults(u.scope, u.permissions);
    SameElements(t.scope, u.scope);
    SameElements(t.permissions, u.permissions);
    DistinctPermutation(t.scope, u.scope);
    DistinctPermutation(t.permissions, u.permissions);
  }

  lemma RespelledContained(t: Token, u: Token, consent: C.Consent)
    requires Respelling(t, u) && ContainmentFault(consent, t.scope, t.permissions).None?
    ensures ContainmentFault(consent, u.scope, u.permissions).None?
  {
    SameElements(u.scope, t.scope);
    SameElements(u.permissions, t.permissions);
  }

  /** The order in which a token lists its scope and permissions never matters: a rearranged token stands on the
      same consent, under the same hash and id, so that it is revoked with the original and counts as its replay. */
  lemma RespelledStands(t: Token, u: Token, consent: C.Consent, hash: HashFn, now: string, r: Registries)
    requires Respelling(t, u) && VerifyFault(t, consent, now, r, hash).None?
    ensures VerifyFault(u, consent, now, r, hash).None?
    ensures u.capabilityHash == t.capabilityHash && u.tokenId == t.tokenId
  {
    RespelledHash(t, u, hash);
    RespelledLists(t, u);
    RespelledContained(t, u, consent);
    RespelledFields(t, u);
    assert ValidationFault(u, hash).None?;
  }

  lemma RespelledFields(t: Token, u: Token)
    requires Respelling(t, u) && FieldFault(t).None?
    requires ScopeFault(u.scope).None? && PermissionFault(u.permissions).None?
    ensures FieldFault(u).None?
  {
  }

  // ---------- runs over one pair of registries ----------

  datatype Op = Present(token: Token, consent: C.Consent, now: string) | Revoke(capabilityHash: string)

  function NoRegistries(): Registries {
    Registries({}, {})
  }

  /** Whether an operation succeeds. A malformed revocation target is an error. */
  predicate Succeeds(op: Op, r: Registries, hash: HashFn) {
    match op
    case Present(t, consent, now) => VerifyFault(t, consent, now, r, hash).None?
    case Revoke(h) => Hex64(h)
  }

  function Step(op: Op, r: Registries, hash: HashFn): Registries {
    if !Succeeds(op, r, hash) then r
    else
      match op
      case Present(t, _, _) => r.(seen := r.seen + {t.tokenId})
      case Revoke(h) => r.(revoked := r.revoked + {h})
  }

  /** The state after the first `n` operations of a run. */
  function RunTo<S, O>(step: (O, S) -> S, ops: seq<O>, n: nat, start: S): S
    requires n <= |ops|
  {
    if n == 0 then start else step(ops[n - 1], RunTo(step, ops, n - 1, start))
  }

  function Stepper(hash: HashFn): (Op, Registries) -> Registries {
    (op, r) => Step(op, r, hash)
  }

  /** The registries after the first `n` operations of a run from empty ones. */
  function After(ops: seq<Op>, n: nat, hash: HashFn): Registries
    requires n <= |ops|
  {
    RunTo(Stepper(hash), ops, n, NoRegistries())
  }

  predicate SucceedsAt(ops: seq<Op>, i: nat, hash: HashFn)
    requires i < |ops|
  {
    Succeeds(ops[i], After(ops, i, hash), hash)
  }

  /** A successful presentation of the id among the first `n` operations. */
  ghost predicate Presented(ops: seq<Op>, n: nat, id: string, hash: HashFn)
    requires n <= |ops|
  {
    exists i | 0 <= i < n :: ops[i].Present? && ops[i].token.tokenId == id && SucceedsAt(ops, i, hash)
  }

  /** A well-formed revocation of the hash among the first `n` operations. */
  ghost predicate RevokedBefore(ops: seq<Op>, n: nat, capabilityHash: string)
    requires n <= |ops|
  {
    exists i | 0 <= i < n :: ops[i] == Revoke(capabilityHash) && Hex64(capabilityHash)
  }

  lemma PresentedNext(ops: seq<Op>, n: nat, id: string, hash: HashFn)
    requires n < |ops|
    ensures Presented(ops, n + 1, id, hash) <==>
      || Presented(ops, n, id, hash)
      || (ops[n].Present? && ops[n].token.tokenId == id && SucceedsAt(ops, n, hash))
  {
  }

  lemma RevokedNext(ops: seq<Op>, n: nat, h: string)
    requires n < |ops|
    ensures RevokedBefore(ops, n + 1, h) <==> RevokedBefore(ops, n, h) || (ops[n] == Revoke(h) && Hex64(h))
  {
  }

  /** On every run the seen set is exactly the ids of successful presentations, and the revoked set exactly the
      well-formed targets of revocations. */
  lemma {:induction false} RegistriesTell(ops: seq<Op>, n: nat, id: string, hash: HashFn)
    requires n <= |ops|
    ensures id in After(ops, n, hash).seen <==> Presented(ops, n, id, hash)
    ensures id in After(ops, n, hash).revoked <==> RevokedBefore(ops, n, id)
  {
    if n > 0 {
      RegistriesTell(ops, n - 1, id, hash);
      PresentedNext(ops, n - 1, id, hash);
      RevokedNext(ops, n - 1, id);
    }
  }

  /** When a presentation succeeds in the middle of any run: the token stands and is in force, its hash has not been
      revoked before, and its id has not been accepted before. */
  lemma AcceptedExactly(ops: seq<Op>, n: nat, hash: HashFn)
    requires n < |ops| && ops[n].Present?
    ensures var t, now := ops[n].token, ops[n].now;
      SucceedsAt(ops, n, hash) <==>
        && Stands(t, ops[n].consent, hash)
        && StrLeq(t.issuedAt, now) && (t.notBefore.Some? ==> StrLeq(t.notBefore.value, now)) && StrLeq(now, t.expiresAt)
        && !RevokedBefore(ops, n, t.capabilityHash)
        && !Presented(ops, n, t.tokenId, hash)
  {
    RegistriesTell(ops, n, ops[n].token.tokenId, hash);
    RegistriesTell(ops, n, ops[n].token.capabilityHash, hash);
    StandingIff(ops[n].token, ops[n].consent, hash);
    if Stands(ops[n].token, ops[n].consent, hash) {
      ClockAllows(ops[n].token, ops[n].now);
    }
  }

  /** An id is accepted at most once. */
  lemma AcceptedOnce(ops: seq<Op>, i: nat, j: nat, hash: HashFn)
    requires i < j < |ops| && ops[i].Present? && ops[j].Present?
    requires SucceedsAt(ops, i, hash) && SucceedsAt(ops, j, hash)
    ensures ops[i].token.tokenId != ops[j].token.tokenId
  {
    AcceptedExactly(ops, j, hash);
  }

  /** Nothing is accepted after its hash is revoked. */
  lemma RevokedForGood(ops: seq<Op>, i: nat, j: nat, hash: HashFn)
    requires i < j < |ops| && ops[i].Revoke? && Hex64(ops[i].capabilityHash)
    requires ops[j].Present? && ops[j].token.capabilityHash == ops[i].capabilityHash
    ensures !SucceedsAt(ops, j, hash)
  {
    AcceptedExactly(ops, j, hash);
    assert ops[i] == Revoke(ops[j].token.capabilityHash);
  }

  /** What single use and revocation cover: the id and the hash, and not the grant. In the middle of any run, whatever
      became of a token before, it is accepted under another id exactly while it is in force, the new hash not revoked
      and the new id not accepted before. */
  lemma ReissuedAccepted(ops: seq<Op>, n: nat, t: Token, tokenId: string, hash: HashFn)
    requires n < |ops| && ops[n].Present? && ops[n].token == Reissued(t, tokenId, hash)
    requires StandingFault(t, ops[n].consent, hash).None?
    ensures SucceedsAt(ops, n, hash) <==>
      && Hex64(tokenId) && InForce(t, ops[n].now)
      && !RevokedBefore(ops, n, HashOf(t.(tokenId := tokenId), hash))
      && !Presented(ops, n, tokenId, hash)
  {
    ReissuedStands(t, ops[n].consent, hash, tokenId, ops[n].now);
    StandingIff(Reissued(t, tokenId, hash), ops[n].consent, hash);
    AcceptedExactly(ops, n, hash);
  }

  lemma {:induction false} SamePrefix<S, O>(step: (O, S) -> S, a: seq<O>, b: seq<O>, n: nat, start: S)
    requires n <= |a| && n <= |b| && a[..n] == b[..n]
    ensures RunTo(step, a, n, start) == RunTo(step, b, n, start)
  {
    if n > 0 {
      assert a[..n - 1] == a[..n][..n - 1] == b[..n][..n - 1] == b[..n - 1];
      assert a[n - 1] == a[..n][n - 1] == b[..n][n - 1] == b[n - 1];
      SamePrefix(step, a, b, n - 1, start);
    }
  }

  lemma {:induction false} SameSuffix<S, O>(step: (O, S) -> S, a: seq<O>, b: seq<O>, i: nat, j: nat, k: nat, start: S)
    requires i + k <= |a| && j + k <= |b| && a[i..i + k] == b[j..j + k]
    requires RunTo(step, a, i, start) == RunTo(step, b, j, start)
    ensures RunTo(step, a, i + k, start) == RunTo(step, b, j + k, start)
  {
    if k > 0 {
      assert a[i..i + k - 1] == a[i..i + k][..k - 1] == b[j..j + k][..k - 1] == b[j..j + k - 1];
      assert a[i + k - 1] == a[i..i + k][k - 1] == b[j..j + k][k - 1] == b[j + k - 1];
      SameSuffix(step, a, b, i, j, k - 1, start);
    }
  }

  /** An operation that changes nothing can be left out of a run. */
  lemma Inert<S, O>(step: (O, S) -> S, before: seq<O>, op: O, later: seq<O>, k: nat, start: S)
    requires k <= |later|
    requires var s := RunTo(step, before, |before|, start); step(op, s) == s
    ensures RunTo(step, before + [op] + later, |before| + 1 + k, start)
      == RunTo(step, before + later, |before| + k, start)
  {
    var long, short, n := before + [op] + later, before + later, |before|;
    assert long[..n] == before[..n] == short[..n];
    SamePrefix(step, long, before, n, start);
    SamePrefix(step, short, before, n, start);
    assert long[n] == op;
    assert long[n + 1..n + 1 + k] == later[..k] == short[n..n + k];
    SameSuffix(step, long, short, n + 1, n, k, start);
  }

  lemma IndexAround<O>(before: seq<O>, op: O, later: seq<O>, k: nat)
    requires k < |later|
    ensures (before + [op] + later)[|before| + 1 + k] == later[k] == (before + later)[|before| + k]
  {
  }

  /** A failed operation consumes nothing: with it left out, every later operation fares the same. */
  lemma FailureIsInert(before: seq<Op>, op: Op, later: seq<Op>, k: nat, hash: HashFn)
    requires k < |later| && !Succeeds(op, After(before, |before|, hash), hash)
    ensures SucceedsAt(before + [op] + later, |before| + 1 + k, hash)
      <==> SucceedsAt(before + later, |before| + k, hash)
  {
    IndexAround(before, op, later, k);
    Inert(Stepper(hash), before, op, later, k, NoRegistries());
  }

  // ---------- the registries in memory ----------

  class InMemoryNonceRegistry {
    var seen: set<string>

    constructor ()
      ensures seen == {}
    {
      seen := {};
    }

    method MarkSeen(tokenId: string)
      modifies this
      ensures seen == old(seen) + {tokenId}
    {
      seen := seen + {tokenId};
    }
  }

  class InMemoryRevocationRegistry {
    var revoked: set<string>

    constructor ()
      ensures revoked == {}
    {
      revoked := {};
    }

    method RevokeCapabilityToken(capabilityHash: string) returns (ok: bool)
      modifies this
      ensures ok <==> Hex64(capabilityHash)
      ensures revoked == if ok then old(revoked) + {capabilityHash} else old(revoked)
    {
      ok := Hex64(capabilityHash);
      if ok {
        revoked := revoked + {capabilityHash};
      }
    }
  }

  /** Verification as it runs: the checks in order, the registries last, the id marked only on success. */
  method VerifyCapabilityToken(
    t: Token, consent: C.Consent, now: string, nonces: InMemoryNonceRegistry, revocations: InMemoryRevocationRegistry,
    hash: HashFn)
    returns (fault: Option<TokenError>)
    modifies nonces
    ensures var r := Registries(old(nonces.seen), revocations.revoked);
      && fault == VerifyFault(t, consent, now, r, hash)
      && Registries(nonces.seen, revocations.revoked) == Step(Present(t, consent, now), r, hash)
  {
    fault := StandingFault(t, consent, hash);
    if fault.Some? {
      return;
    }
    fault := ClockFault(t, now);
    if fault.Some? {
      return;
    }
    if t.capabilityHash in revocations.revoked {
      return Some(TokenRevoked);
    }
    if t.tokenId in nonces.seen {
      return Some(Replayed);
    }
    nonces.MarkSeen(t.tokenId);
  }
}
