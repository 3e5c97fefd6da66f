/** What the access decisions come to, written out: which requests are read as what, which of them are allowed and why
    the others are denied, and what an issued contract says. */
module Allowed {
  import opened Options
  import opened Text
  import opened Sorting
  import opened Values
  import opened Capability
  import opened Enforcement
  import opened Execution

  // ---------- how a request is read ----------

  /** The same entries, each however often, in any order, case and padding. */
  ghost predicate SpellsScope(v: Value, scope: seq<Scope>) {
    && v.Arr? && (forall x | x in v.items :: x.Entry? && x.kind.Str? && x.ref.Str?)
    && (forall e | e in scope :: exists x :: x in v.items && e == Scope(Trim(x.kind.s), Norm(x.ref.s)))
    && (forall x | x in v.items :: Scope(Trim(x.kind.s), Norm(x.ref.s)) in scope)
  }

  ghost predicate SpellsPermissions(v: Value, permissions: seq<string>) {
    && v.Arr? && (forall x | x in v.items :: x.Str?)
    && (forall p | p in permissions :: exists x :: x in v.items && p == Norm(x.s))
    && (forall x | x in v.items :: Norm(x.s) in permissions)
  }

  ghost predicate SpellsBinding(v: Value, b: Option<string>) {
    if b.Some? then v.Str? && Trim(v.s) == b.value else v == Undefined
  }

  ghost predicate SpellsResource(v: Value, r: ResourceField) {
    match r
    case NoResource => v == Undefined
    case NullResource => v == Null
    case Resource(e) => v.Entry? && v.kind.Str? && v.ref.Str? && e == Scope(Trim(v.kind.s), Norm(v.ref.s))
  }

  /** A record that reads as a request, in whatever spelling. */
  ghost predicate SpellsRequest(input: EnforcementInput, r: Request) {
    && input.RequestRecord? && input.capability == Some(r.capability)
    && SpellsScope(input.scope, r.scope) && SpellsPermissions(input.permissions, r.permissions)
    && SpellsBinding(input.subject, r.subject) && SpellsBinding(input.grantee, r.grantee)
    && SpellsBinding(input.marketMakerId, r.marketMakerId) && SpellsResource(input.resource, r.resource)
    && input.actionContext == (if r.actionContext.Some? then r.actionContext.value else Undefined)
    && input.now == (if r.now.Some? then At(r.now.value) else NoNow)
  }

  lemma ScopeReads(v: Value, scope: seq<Scope>)
    ensures RequestedScopeParses(v) && scope == SortedSet(ParseScope(v.items), ScopeLeq)
       <==> NormalScopeList(scope) && SpellsScope(v, scope)
  {
    ScopeOrder();
    if RequestedScopeParses(v) {
      ParsedScopeNormal(v);
      ParsedScopeSpells(v);
    }
    if NormalScopeList(scope) && SpellsScope(v, scope) {
      SpelledScopeParses(v, scope);
      ParsedScopeSpells(v);
      ParsedScopeNormal(v);
      forall e ensures e in scope <==> e in SortedSet(ParseScope(v.items), ScopeLeq) {
      }
      DistinctSameContents(scope, SortedSet(ParseScope(v.items), ScopeLeq));
      SortedUnique(scope, SortedSet(ParseScope(v.items), ScopeLeq), ScopeLeq);
    }
  }

  lemma ParsedScopeSpells(v: Value)
    requires RequestedScopeParses(v)
    ensures SpellsScope(v, SortedSet(ParseScope(v.items), ScopeLeq))
  {
    var parsed := ParseScope(v.items);
    ScopeOrder();
    SortedSetMembers(parsed, ScopeLeq);
    forall e | e in parsed ensures exists x :: x in v.items && e == Scope(Trim(x.kind.s), Norm(x.ref.s)) {
      var i :| 0 <= i < |parsed| && parsed[i] == e;
      assert v.items[i] in v.items;
    }
    forall x | x in v.items ensures Scope(Trim(x.kind.s), Norm(x.ref.s)) in parsed {
      var i :| 0 <= i < |v.items| && v.items[i] == x;
      assert parsed[i] == ParseEntry(x);
    }
  }

  lemma SpelledScopeParses(v: Value, scope: seq<Scope>)
    requires NormalScopeList(scope) && SpellsScope(v, scope)
    ensures RequestedScopeParses(v)
  {
    assert scope[0] in scope;
    forall x | x in v.items ensures EntryParses(x) {
      var e := Scope(Trim(x.kind.s), Norm(x.ref.s));
      assert e in scope;
      ValidKindPlain(e.kind);
    }
  }

  lemma PermissionsRead(v: Value, permissions: seq<string>)
    ensures (RequestedPermissionsParse(v)
             && permissions == SortedSet(NormalPermissions(ParsePermissions(v.items)), StrLeq))
       <==> NormalPermissionList(permissions) && SpellsPermissions(v, permissions)
  {
    StringOrder();
    if RequestedPermissionsParse(v) {
      ParsedPermissionsNormal(v);
      ParsedPermissionsSpell(v);
    }
    if NormalPermissionList(permissions) && SpellsPermissions(v, permissions) {
      assert permissions[0] in permissions;
      assert RequestedPermissionsParse(v);
      ParsedPermissionsSpell(v);
      ParsedPermissionsNormal(v);
      var read := SortedSet(ParsePermissions(v.items), StrLeq);
      forall p ensures p in permissions <==> p in read {
      }
      DistinctSameContents(permissions, read);
      SortedUnique(permissions, read, StrLeq);
    }
  }

  lemma ParsedPermissionsSpell(v: Value)
    requires RequestedPermissionsParse(v)
    ensures SpellsPermissions(v, SortedSet(ParsePermissions(v.items), StrLeq))
  {
    var parsed := ParsePermissions(v.items);
    StringOrder();
    SortedSetMembers(parsed, StrLeq);
    forall p | p in parsed ensures exists x :: x in v.items && p == Norm(x.s) {
      var i :| 0 <= i < |parsed| && parsed[i] == p;
      assert v.items[i] in v.items;
    }
    forall x | x in v.items ensures Norm(x.s) in parsed {
      var i :| 0 <= i < |v.items| && v.items[i] == x;
      assert parsed[i] == Norm(x.s);
    }
  }

  lemma BindingReads(v: Value, b: Option<string>)
    ensures BindingParses(v) && b == ParseBinding(v) <==> NormalBinding(b) && SpellsBinding(v, b)
  {
    if v.Str? {
      TrimIdempotent(v.s);
    }
  }

  lemma ResourceReads(v: Value, r: ResourceField)
    ensures ResourceParses(v) && r == ParseResource(v) <==> NormalResource(r) && SpellsResource(v, r)
  {
    if v.Entry? && v.kind.Str? && v.ref.Str? {
      NormIdempotent(v.ref.s);
      if ValidKind(Trim(v.kind.s)) {
        ValidKindPlain(Trim(v.kind.s));
      }
    }
  }

  /** Enforcement reads a record as a request exactly when the request is in normal form and the record spells it. */
  lemma NormalizedIff(input: EnforcementInput, r: Request)
    ensures Normalized(input) == Some(r) <==> NormalRequest(r) && SpellsRequest(input, r)
  {
    if input.RequestRecord? && input.capability.Some? {
      ScopeReads(input.scope, r.scope);
      PermissionsRead(input.permissions, r.permissions);
      BindingReads(input.subject, r.subject);
      BindingReads(input.grantee, r.grantee);
      BindingReads(input.marketMakerId, r.marketMakerId);
      ResourceReads(input.resource, r.resource);
      if Normalized(input) == Some(r) {
        var read := ParseEnforcementRequest(input).value;
        assert r == NormalizeEnforcementRequest(read);
      }
      if NormalRequest(r) && SpellsRequest(input, r) {
        assert RequestParses(input);
        var read := NormalizeEnforcementRequest(ParseEnforcementRequest(input).value);
        assert read.scope == r.scope && read.permissions == r.permissions && read.resource == r.resource;
        assert read.actionContext == r.actionContext && read.now == r.now;
      }
    }
  }

  // ---------- what is allowed ----------

  /** Started, not expired and not revoked, as the port answers. */
  ghost predicate Live(c: Capability, now: Instant, port: Port) {
    && port(Subject(c.capabilityHash, CapabilityGrant)) == VerifiedNotRevoked
    && (c.notBefore.Some? ==> StrLeq(c.notBefore.value, now.iso)) && StrLt(now.iso, c.expiresAt)
  }

  ghost predicate ScopeWithin(scope: seq<Scope>, c: Capability) {
    forall e | e in scope :: e in c.scope
  }

  ghost predicate PermissionsWithin(permissions: seq<string>, c: Capability) {
    forall p | p in permissions :: p in c.permissions
  }

  /** A party named in a request is the one the capability names. */
  ghost predicate NamesParties(
    subject: Option<string>, grantee: Option<string>, marketMakerId: Option<string>, c: Capability)
  {
    && (subject.Some? ==> subject.value == c.subject)
    && (grantee.Some? ==> grantee.value == c.grantee)
    && (marketMakerId.Some? ==> c.marketMakerId.Some? && marketMakerId.value == c.marketMakerId.value)
  }

  /** The access check, written out. */
  lemma AccessIff(input: CapabilityInput, q: AccessRequest, port: Port, hash: HashFn)
    ensures EvaluateCapabilityAccess(input, q, port, hash) <==>
      && VerifyCapability(input, hash).Accepted?
      && var c := VerifyCapability(input, hash).capability;
      && Live(c, q.now, port) && q.scope != [] && q.permissions != []
      && (forall e | e in q.scope :: Trim(e.ref) != "" && Scope(e.kind, Norm(e.ref)) in c.scope)
      && (forall p | p in q.permissions :: Trim(p) != "" && Norm(p) in c.permissions)
      && NamesParties(q.subject, q.grantee, q.marketMakerId, c)
  {
    if VerifyCapability(input, hash).Accepted? {
      var c := VerifyCapability(input, hash).capability;
      VerifyIsFixpoint(input, hash);
      StateTells(c, q.now, port);
      forall e | e in q.scope ensures Key(NormalEntry(e)) in Keys(c.scope) <==> Scope(e.kind, Norm(e.ref)) in c.scope {
        KeyMember(NormalEntry(e), c.scope);
      }
    }
  }

  /** The instant a decision is made for: the request's own, or else the clock's. */
  function DecidedAt(r: Request, clock: Instant): Instant {
    if r.now.Some? then r.now.value else clock
  }

  ghost predicate Grants(c: Capability, r: Request, now: Instant, port: Port) {
    && Live(c, now, port) && ScopeWithin(r.scope, c) && PermissionsWithin(r.permissions, c)
    && NamesParties(r.subject, r.grantee, r.marketMakerId, c)
  }

  /** Which requests are allowed: those that read as a request for which an accepted, live capability holds every
      entry and permission asked for and names every party the request names. */
  lemma AllowedIff(input: EnforcementInput, clock: Instant, port: Port, hash: HashFn)
    ensures Allows(EvaluateEnforcement(input, clock, port, hash)) <==>
      && Normalized(input).Some?
      && var r := Normalized(input).value;
      && VerifyCapability(r.capability, hash).Accepted?
      && Grants(VerifyCapability(r.capability, hash).capability, r, DecidedAt(r, clock), port)
  {
    DecisionsAgree(input, clock, port, hash);
    if Normalized(input).Some? {
      var r := Normalized(input).value;
      NormalizedIsNormal(input);
      AccessIff(r.capability, AccessOf(r, clock), port, hash);
      assert forall e | e in r.scope :: Scope(e.kind, Norm(e.ref)) == e;
      assert forall p | p in r.permissions :: Norm(p) == p;
    }
  }

  /** Why a request is denied: the first of the checks, in their order, that fails. */
  ghost predicate DeniedFor(reason: ReasonCode, r: Request, c: Capability, now: Instant, port: Port) {
    var answer := port(Subject(c.capabilityHash, CapabilityGrant));
    var early := c.notBefore.Some? && StrLt(now.iso, c.notBefore.value);
    match reason
    case CapabilityRevoked => answer == Revoked
    case CapabilityRevocationUnknown => answer != Revoked && answer != VerifiedNotRevoked
    case CapabilityNotYetActive => answer == VerifiedNotRevoked && early
    case CapabilityExpired => answer == VerifiedNotRevoked && !early && StrLeq(c.expiresAt, now.iso)
    case ScopeNotAllowed => Live(c, now, port) && !ScopeWithin(r.scope, c)
    case PermissionNotAllowed =>
      Live(c, now, port) && ScopeWithin(r.scope, c) && !PermissionsWithin(r.permissions, c)
    case SubjectMismatch =>
      && Live(c, now, port) && ScopeWithin(r.scope, c) && PermissionsWithin(r.permissions, c)
      && r.subject.Some? && r.subject.value != c.subject
    case GranteeMismatch =>
      && Live(c, now, port) && ScopeWithin(r.scope, c) && PermissionsWithin(r.permissions, c)
      && NamesParties(r.subject, None, None, c)
      && r.grantee.Some? && r.grantee.value != c.grantee
    case MarketMakerMismatch =>
      && Live(c, now, port) && ScopeWithin(r.scope, c) && PermissionsWithin(r.permissions, c)
      && NamesParties(r.subject, r.grantee, None, c)
      && r.marketMakerId.Some? && c.marketMakerId != r.marketMakerId
    case EnforcementAllow => Grants(c, r, now, port)
    case _ => false
  }

  /** Every decision carries the request and the instant it was made for, and its reason: `RequestInvalid` for what is
      no request, `CapabilityInvalid` for what is no capability, and else the one reason that applies. */
  lemma DecisionTells(input: EnforcementInput, clock: Instant, port: Port, hash: HashFn)
    requires EvaluateEnforcement(input, clock, port, hash).Some?
    ensures var d := EvaluateEnforcement(input, clock, port, hash).value;
      && d.request == Normalized(input)
      && (d.reason == RequestInvalid <==> Normalized(input).None?)
      && (Normalized(input).Some? ==>
            var r := Normalized(input).value;
            && d.evaluatedAt == DecidedAt(r, clock)
            && match VerifyCapability(r.capability, hash)
               case Rejected(_) => d.reason == CapabilityInvalid && d.capability == None
               case Accepted(c) =>
                 && d.capability == Some(c)
                 && DeniedFor(d.reason, r, c, d.evaluatedAt, port))
  {
    if Normalized(input).Some? {
      var r := Normalized(input).value;
      NormalizedIsNormal(input);
      if VerifyCapability(r.capability, hash).Accepted? {
        VerifyIsFixpoint(r.capability, hash);
        VerifiedDecisionTells(r, VerifyCapability(r.capability, hash).capability, DecidedAt(r, clock), port);
      }
    }
  }

  lemma VerifiedDecisionTells(r: Request, c: Capability, now: Instant, port: Port)
    requires NormalRequest(r) && (forall e | e in c.scope :: ValidEntry(e)) && DecidedAt(r, now) == now
    ensures var d := DecideVerified(r, c, Accepted(c), now, port);
      && d.request == Some(r) && d.evaluatedAt == now && d.capability == Some(c)
      && DeniedFor(d.reason, r, c, now, port)
  {
    assert AccessOf(r, now).now == now;
    StateDenialTells(r, c, now, port);
    if StateOf(Accepted(c), now, port) == Active {
      ActiveDecisionTells(r, c, now, port);
      RequestDecisionFields(r, c, now, port);
    }
  }

  lemma RequestDecisionFields(r: Request, c: Capability, now: Instant, port: Port)
    ensures var d := DecideRequest(r, c, Accepted(c), now, port);
      d.request == Some(r) && d.evaluatedAt == now && d.capability == Some(c)
  {
  }

  lemma ActiveDecisionTells(r: Request, c: Capability, now: Instant, port: Port)
    requires NormalRequest(r) && (forall e | e in c.scope :: ValidEntry(e)) && DecidedAt(r, now) == now
    requires StateOf(Accepted(c), now, port) == Active && Live(c, now, port)
    ensures DeniedFor(DecideRequest(r, c, Accepted(c), now, port).reason, r, c, now, port)
  {
    ScopeMismatchTells(r.scope, c);
    PermissionMismatchTells(r.permissions, c);
    ClosingCheckAgrees(r, c, now, port);
    RequestDecisionTells(r, c, now, port);
  }

  /** A capability that is not active is denied for its state. */
  lemma StateDenialTells(r: Request, c: Capability, now: Instant, port: Port)
    ensures StateOf(Accepted(c), now, port) == Active ==> Live(c, now, port)
    ensures StateOf(Accepted(c), now, port) != Active ==>
      DeniedFor(StateReason(StateOf(Accepted(c), now, port)), r, c, now, port)
  {
    StateTells(c, now, port);
  }

  lemma ScopeMismatchTells(scope: seq<Scope>, c: Capability)
    requires forall e | e in c.scope :: ValidEntry(e)
    ensures FirstMismatch(scope, ScopeIn(c.scope)).mismatch.None? <==> ScopeWithin(scope, c)
  {
    var m := FirstMismatch(scope, ScopeIn(c.scope));
    forall e ensures ScopeIn(c.scope)(e) <==> e in c.scope {
      KeyMember(e, c.scope);
    }
    assert m.mismatch.Some? ==> m.mismatch.value in scope;
  }

  lemma PermissionMismatchTells(permissions: seq<string>, c: Capability)
    ensures FirstMismatch(permissions, PermissionIn(c.permissions)).mismatch.None?
       <==> PermissionsWithin(permissions, c)
  {
    var m := FirstMismatch(permissions, PermissionIn(c.permissions));
    assert m.mismatch.Some? ==> m.mismatch.value in permissions;
  }

  lemma RequestDecisionTells(r: Request, c: Capability, now: Instant, port: Port)
    requires Live(c, now, port) && DecideRequest(r, c, Accepted(c), now, port).reason != RequestInvalid
    requires FirstMismatch(r.scope, ScopeIn(c.scope)).mismatch.None? <==> ScopeWithin(r.scope, c)
    requires FirstMismatch(r.permissions, PermissionIn(c.permissions)).mismatch.None?
        <==> PermissionsWithin(r.permissions, c)
    ensures DeniedFor(DecideRequest(r, c, Accepted(c), now, port).reason, r, c, now, port)
  {
  }

  /** The entries before the first that is not granted. */
  ghost predicate Prefix<T(!new)>(matched: Option<seq<T>>, requested: seq<T>, granted: seq<T>) {
    && matched.Some? && matched.value <= requested && (forall x | x in matched.value :: x in granted)
    && (|matched.value| < |requested| ==> requested[|matched.value|] !in granted)
  }

  /** What a decision lists as matched: nothing for a capability that is not active; else the scope up to the first
      entry not granted, and, if that is all of it, the permissions up to the first not granted. */
  ghost predicate Lists(d: Decision, r: Request, c: Capability) {
    match d.reason
    case ScopeNotAllowed => Prefix(d.matchedScope, r.scope, c.scope) && d.matchedPermissions == None
    case PermissionNotAllowed | SubjectMismatch | GranteeMismatch | MarketMakerMismatch | EnforcementAllow =>
      d.matchedScope == Some(r.scope) && Prefix(d.matchedPermissions, r.permissions, c.permissions)
    case _ => d.matchedScope == None && d.matchedPermissions == None
  }

  lemma ScopePrefix(scope: seq<Scope>, c: Capability)
    requires forall e | e in c.scope :: ValidEntry(e)
    ensures var m := FirstMismatch(scope, ScopeIn(c.scope));
      Prefix(Some(m.matched), scope, c.scope) && (m.mismatch.None? ==> m.matched == scope)
  {
    forall e ensures ScopeIn(c.scope)(e) <==> e in c.scope {
      KeyMember(e, c.scope);
    }
  }

  lemma PermissionPrefix(permissions: seq<string>, c: Capability)
    ensures Prefix(Some(FirstMismatch(permissions, PermissionIn(c.permissions)).matched), permissions, c.permissions)
  {
  }

  /** Every decision on an accepted capability lists what matched. */
  lemma MatchesTell(input: EnforcementInput, clock: Instant, port: Port, hash: HashFn)
    requires EvaluateEnforcement(input, clock, port, hash).Some? && Normalized(input).Some?
    requires VerifyCapability(Normalized(input).value.capability, hash).Accepted?
    ensures var r := Normalized(input).value;
      Lists(EvaluateEnforcement(input, clock, port, hash).value, r, VerifyCapability(r.capability, hash).capability)
  {
    var r := Normalized(input).value;
    var c := VerifyCapability(r.capability, hash).capability;
    VerifyIsFixpoint(r.capability, hash);
    NormalizedIsNormal(input);
    VerifiedMatches(r, c, DecidedAt(r, clock), port);
  }

  lemma VerifiedMatches(r: Request, c: Capability, now: Instant, port: Port)
    requires NormalRequest(r) && (forall e | e in c.scope :: ValidEntry(e)) && DecidedAt(r, now) == now
    ensures Lists(DecideVerified(r, c, Accepted(c), now, port), r, c)
  {
    if StateOf(Accepted(c), now, port) == Active {
      ScopePrefix(r.scope, c);
      PermissionPrefix(r.permissions, c);
      ClosingCheckAgrees(r, c, now, port);
    }
  }

  // ---------- what is authorised, and the contract ----------

  ghost predicate SpellsText(v: Value, text: string) {
    v.Str? && Trim(v.s) == text && text != ""
  }

  /** The execution parser reads a record as a request with a target and a payload exactly when the record spells all
      three. */
  lemma NormalizedExecutionIff(input: ExecutionInput, e: ExecutionRequest)
    ensures NormalizedExecution(input) == Some(e) <==>
      && input.ExecutionRecord? && NormalRequest(e.request) && SpellsRequest(input.shared, e.request)
      && input.target.Target?
      && SpellsText(input.target.adapter, e.target.adapter) && SpellsText(input.target.operation, e.target.operation)
      && input.payload == (if e.payload.Some? then e.payload.value else Undefined)
      && (e.payload.Some? ==> e.payload.value == Null || IsObject(e.payload.value))
  {
    if input.ExecutionRecord? {
      TextReads(input.target);
      if OwnFieldsParse(input.shared) {
        RereadSpells(input.shared, e.request);
        NormalizedIff(Reread(input.shared), e.request);
        ExecutionReads(input, e);
      } else if NormalRequest(e.request) && SpellsRequest(input.shared, e.request) {
        SpelledParses(input.shared, e.request);
        assert false;
      }
    }
  }

  lemma TextReads(target: Value)
    ensures target.Target? && target.adapter.Str? ==> Trim(Trim(target.adapter.s)) == Trim(target.adapter.s)
    ensures target.Target? && target.operation.Str? ==> Trim(Trim(target.operation.s)) == Trim(target.operation.s)
  {
    if target.Target? && target.adapter.Str? {
      TrimIdempotent(target.adapter.s);
    }
    if target.Target? && target.operation.Str? {
      TrimIdempotent(target.operation.s);
    }
  }

  lemma ExecutionReads(input: ExecutionInput, e: ExecutionRequest)
    requires input.ExecutionRecord? && OwnFieldsParse(input.shared)
    ensures NormalizedExecution(input) == Some(e) <==>
      && Normalized(Reread(input.shared)) == Some(e.request)
      && input.target.Target?
      && SpellsText(input.target.adapter, e.target.adapter) && SpellsText(input.target.operation, e.target.operation)
      && input.payload == (if e.payload.Some? then e.payload.value else Undefined)
      && (e.payload.Some? ==> e.payload.value == Null || IsObject(e.payload.value))
  {
    TextReads(input.target);
  }

  lemma SpelledParses(input: EnforcementInput, r: Request)
    requires NormalRequest(r) && SpellsRequest(input, r)
    ensures OwnFieldsParse(input)
  {
    BindingReads(input.subject, r.subject);
    BindingReads(input.grantee, r.grantee);
    BindingReads(input.marketMakerId, r.marketMakerId);
    ResourceReads(input.resource, r.resource);
  }

  /** Reading some fields twice is reading them once. */
  lemma RereadSpells(input: EnforcementInput, r: Request)
    requires OwnFieldsParse(input)
    ensures SpellsRequest(Reread(input), r) <==> SpellsRequest(input, r)
  {
    var again := Reread(input);
    RereadBinding(input.subject, r.subject);
    RereadBinding(input.grantee, r.grantee);
    RereadBinding(input.marketMakerId, r.marketMakerId);
    RereadResource(input.resource, r.resource);
  }

  lemma RereadBinding(v: Value, b: Option<string>)
    requires BindingParses(v)
    ensures SpellsBinding(StrOpt(ParseBinding(v)), b) <==> SpellsBinding(v, b)
  {
    if v.Str? {
      TrimIdempotent(v.s);
    }
  }

  lemma RereadResource(v: Value, r: ResourceField)
    requires ResourceParses(v)
    ensures SpellsResource(EmbedResource(ParseResource(v)), r) <==> SpellsResource(v, r)
  {
    if v.Entry? {
      TrimIdempotent(v.kind.s);
      NormIdempotent(v.ref.s);
    }
  }

  /** What an execution is authorised for and what its contract says. */
  lemma AuthorizedIff(input: ExecutionInput, clock: Instant, port: Port, hash: HashFn)
    ensures var outcome := AuthorizeExecution(input, clock, port, hash);
      && (Authorizes(outcome) <==>
            && NormalizedExecution(input).Some?
            && var r := NormalizedExecution(input).value.request;
            && VerifyCapability(r.capability, hash).Accepted?
            && Grants(VerifyCapability(r.capability, hash).capability, r, DecidedAt(r, clock), port))
      && (Authorizes(outcome) ==>
            var e := NormalizedExecution(input).value;
            var c := VerifyCapability(e.request.capability, hash).capability;
            outcome.value.contract == Some(Contract(
              e.target.adapter, e.target.operation, c.subject, c.grantee, e.request.scope, e.request.permissions,
              c.capabilityHash, c.parentConsentHash, e.request.marketMakerId, e.request.resource,
              e.request.actionContext, DecidedAt(e.request, clock).iso)))
  {
    AuthorizedExactly(input, clock, port, hash);
    if NormalizedExecution(input).Some? {
      var r := NormalizedExecution(input).value.request;
      NormalizedExecutionIsNormal(input);
      assert DecidedAt(r, clock) == RequestTime(input, clock);
      AccessIff(r.capability, AccessOf(r, RequestTime(input, clock)), port, hash);
      assert forall e | e in r.scope :: Scope(e.kind, Norm(e.ref)) == e;
      assert forall p | p in r.permissions :: Norm(p) == p;
    }
  }

  /** What stands in for a target in the answer to what cannot be read. */
  ghost predicate StandsIn(input: ExecutionInput, target: TargetText) {
    if input.ExecutionRecord? && input.target.Target? then
      && target.adapter == TextOr(input.target.adapter, "unknown")
      && target.operation == TextOr(input.target.operation, "unknown")
    else target == TargetText("unknown", "unknown")
  }

  ghost function TextOr(v: Value, otherwise: string): string {
    if v.Str? && Trim(v.s) != "" then Trim(v.s) else otherwise
  }

  /** The instant an answer is given for: the one the record carries, read or not, or else the clock's. */
  ghost function AnsweredAt(input: ExecutionInput, clock: Instant): Instant {
    if input.ExecutionRecord? && input.shared.RequestRecord? && input.shared.now.At? then input.shared.now.at else clock
  }

  /** Every answer to an execution request: what cannot be read is rejected with its target as far as it goes; what can
      is answered by the enforcement decision on it, which it carries, and rejected for that decision's reason. */
  lemma AuthorizationTells(input: ExecutionInput, clock: Instant, port: Port, hash: HashFn)
    requires AuthorizeExecution(input, clock, port, hash).Some?
    ensures var a := AuthorizeExecution(input, clock, port, hash).value;
      && a.evaluatedAt == AnsweredAt(input, clock) && (a.authorized <==> a.contract.Some?)
      && match NormalizedExecution(input)
         case None =>
           && !a.authorized && a.reason == ExecutionRequestInvalid && a.decision == None && StandsIn(input, a.target)
         case Some(e) =>
           && a.target == e.target && a.decision.Some?
           && Carries(a, a.decision.value, e, port, hash)
  {
    AuthorizedExactly(input, clock, port, hash);
    if NormalizedExecution(input).Some? {
      var e, now := NormalizedExecution(input).value, RequestTime(input, clock);
      NormalizedExecutionIsNormal(input);
      TimedDecisionTells(e, now, clock, port, hash);
      var d := EvaluateEnforcement(EmbedRequest(Timed(e, now)), clock, port, hash).value;
      AuthorizeUnfolds(input, e, d, clock, port, hash);
    }
  }

  /** An answer repeats its decision, which is made for the request at the instant of the answer. */
  ghost predicate Carries(a: Authorization, d: Decision, e: ExecutionRequest, port: Port, hash: HashFn) {
    && d.evaluatedAt == a.evaluatedAt && d.request == Some(e.request.(now := Some(a.evaluatedAt)))
    && (a.authorized <==> d.reason == EnforcementAllow)
    && a.reason == (if a.authorized then ExecutionAuthorized else FromEnforcement(d.reason))
    && match VerifyCapability(e.request.capability, hash)
       case Rejected(_) => d.reason == CapabilityInvalid
       case Accepted(c) => DeniedFor(d.reason, e.request, c, a.evaluatedAt, port)
  }

  lemma TimedDecisionTells(e: ExecutionRequest, now: Instant, clock: Instant, port: Port, hash: HashFn)
    requires NormalRequest(e.request) && DecidedAt(e.request, now) == now
    ensures var outcome := EvaluateEnforcement(EmbedRequest(Timed(e, now)), clock, port, hash);
      && outcome.Some? && Carries(AuthorizeDecided(e, outcome.value, now), outcome.value, e, port, hash)
  {
    TimedDecision(e, now, clock, port, hash);
    NormalizeIdempotent(Timed(e, now));
    DecisionTells(EmbedRequest(Timed(e, now)), clock, port, hash);
  }
}
