/** The enforcement decision, made step by step and confirmed by the capability's own access check. */
module Enforcement {
  import opened Options
  import opened Text
  import opened Sorting
  import opened Values
  import opened Capability

  /** The `now` field: missing, a valid date, `null`, or anything else, which has no instant to report. */
  datatype NowField = NoNow | At(at: Instant) | NullNow | BadNow

  /** The incoming request; `capability` is `None` when the field is missing altogether. */
  datatype EnforcementInput =
    | NullRequest
    | NoRecord
    | RequestRecord(
        capability: Option<CapabilityInput>, scope: Value, permissions: Value, subject: Value, grantee: Value,
        marketMakerId: Value, resource: Value, actionContext: Value, now: NowField)

  datatype ResourceField = NoResource | NullResource | Resource(entry: Scope)

  datatype Request = Request(
    capability: CapabilityInput, scope: seq<Scope>, permissions: seq<string>, subject: Option<string>,
    grantee: Option<string>, marketMakerId: Option<string>, resource: ResourceField,
    actionContext: Option<Value>, now: Option<Instant>)

  // ---------- parsing and normalising ----------

  predicate EntryParses(e: Value) {
    e.Entry? && NonBlank(e.kind) && NonBlank(e.ref) && ValidKind(Trim(e.kind.s))
  }

  function ParseEntry(e: Value): Scope
    requires EntryParses(e)
  {
    Scope(Trim(e.kind.s), Norm(e.ref.s))
  }

  predicate RequestedScopeParses(v: Value) {
    v.Arr? && v.items != [] && forall e | e in v.items :: EntryParses(e)
  }

  function ParseScope(items: seq<Value>): seq<Scope>
    requires forall e | e in items :: EntryParses(e)
  {
    seq(|items|, i requires 0 <= i < |items| => assert items[i] in items; ParseEntry(items[i]))
  }

  predicate RequestedPermissionsParse(v: Value) {
    v.Arr? && v.items != [] && forall p | p in v.items :: NonBlank(p)
  }

  function ParsePermissions(items: seq<Value>): seq<string>
    requires forall p | p in items :: p.Str?
  {
    seq(|items|, i requires 0 <= i < |items| => assert items[i] in items; Norm(items[i].s))
  }

  predicate BindingParses(v: Value) {
    v.Undefined? || NonBlank(v)
  }

  function ParseBinding(v: Value): Option<string>
    requires BindingParses(v)
  {
    if v.Undefined? then None else Some(Trim(v.s))
  }

  predicate ResourceParses(v: Value) {
    v.Undefined? || v.Null? || EntryParses(v)
  }

  function ParseResource(v: Value): ResourceField
    requires ResourceParses(v)
  {
    if v.Undefined? then NoResource else if v.Null? then NullResource else Resource(ParseEntry(v))
  }

  predicate ContextParses(v: Value) {
    v.Undefined? || IsObject(v)
  }

  predicate RequestParses(input: EnforcementInput) {
    && input.RequestRecord? && input.capability.Some?
    && RequestedScopeParses(input.scope) && RequestedPermissionsParse(input.permissions)
    && BindingParses(input.subject) && BindingParses(input.grantee) && BindingParses(input.marketMakerId)
    && ResourceParses(input.resource) && ContextParses(input.actionContext) && (input.now.NoNow? || input.now.At?)
  }

  function ParseEnforcementRequest(input: EnforcementInput): Option<Request> {
    if !RequestParses(input) then None
    else Some(Request(
      input.capability.value, ParseScope(input.scope.items), ParsePermissions(input.permissions.items),
      ParseBinding(input.subject), ParseBinding(input.grantee), ParseBinding(input.marketMakerId),
      ParseResource(input.resource),
      if input.actionContext.Undefined? then None else Some(input.actionContext),
      if input.now.At? then Some(input.now.at) else None))
  }

  /** Entries keyed by kind and reference; a later entry takes the place of an earlier one with its key. */
  method DedupeScope(scope: seq<Scope>) returns (r: seq<Scope>)
    requires forall e | e in scope :: ValidKind(e.kind)
    ensures r == SortedSet(scope, ScopeLeq)
  {
    var order: seq<string>, deduped: map<string, Scope> := [], map[];
    ghost var kept: seq<Scope> := [];
    for i := 0 to |scope|
      invariant kept == Dedupe(scope[..i]) && |order| == |kept|
      invariant forall e | e in kept :: ValidKind(e.kind)
      invariant forall k | 0 <= k < |order| ::
        order[k] == Key(kept[k]) && order[k] in deduped && deduped[order[k]] == kept[k]
      invariant forall k :: k in deduped <==> k in order
    {
      var entry := scope[i];
      assert entry in scope;
      assert scope[..i + 1][..i] == scope[..i] && scope[..i + 1][i] == entry;
      assert Key(entry) in order <==> entry in kept by {
        KeyTells(entry, kept, order);
      }
      forall k | 0 <= k < |order| && order[k] == Key(entry) ensures kept[k] == entry {
        SameKeySameEntry(kept[k], entry);
      }
      if Key(entry) !in deduped {
        order, kept := order + [Key(entry)], kept + [entry];
      }
      deduped := deduped[Key(entry) := entry];
    }
    assert scope[..|scope|] == scope;
    var values := seq(|order|, k requires 0 <= k < |order| => deduped[order[k]]);
    assert values == kept;
    r := Sort(values, ScopeLeq);
  }

  lemma KeyTells(entry: Scope, kept: seq<Scope>, order: seq<string>)
    requires ValidKind(entry.kind) && forall e | e in kept :: ValidKind(e.kind)
    requires |order| == |kept| && forall k | 0 <= k < |order| :: order[k] == Key(kept[k])
    ensures Key(entry) in order <==> entry in kept
  {
    if Key(entry) in order {
      var k :| 0 <= k < |order| && order[k] == Key(entry);
      assert kept[k] in kept;
      SameKeySameEntry(kept[k], entry);
    }
    if entry in kept {
      var k :| 0 <= k < |kept| && kept[k] == entry;
      assert order[k] == Key(entry);
    }
  }

  /** With valid kinds, a key determines its entry whatever the reference holds. */
  lemma SameKeySameEntry(a: Scope, b: Scope)
    requires ValidKind(a.kind) && ValidKind(b.kind) && Key(a) == Key(b)
    ensures a == b
  {
    ValidKindPlain(a.kind);
    ValidKindPlain(b.kind);
    var k := Key(a);
    assert k[|a.kind|] == ':' && k[|b.kind|] == ':';
    assert forall i | 0 <= i < |a.kind| :: k[i] == a.kind[i];
    assert forall i | 0 <= i < |b.kind| :: k[i] == b.kind[i];
    assert |a.kind| == |b.kind|;
    assert a.kind == k[..|a.kind|] == b.kind;
    assert a.ref == k[|a.kind| + 1..] == b.ref;
  }

  function NormalizeEnforcementRequest(r: Request): Request {
    r.(scope := SortedSet(r.scope, ScopeLeq), permissions := SortedSet(NormalPermissions(r.permissions), StrLeq))
  }

  ghost predicate NormalScopeList(scope: seq<Scope>) {
    && scope != [] && Sorted(scope, ScopeLeq) && Distinct(scope)
    && forall e | e in scope :: ValidKind(e.kind) && Norm(e.ref) == e.ref && Trim(e.ref) != ""
  }

  ghost predicate NormalPermissionList(permissions: seq<string>) {
    && permissions != [] && Sorted(permissions, StrLeq) && Distinct(permissions)
    && forall p | p in permissions :: Norm(p) == p && Trim(p) != ""
  }

  ghost predicate NormalResource(r: ResourceField) {
    r.Resource? ==> ValidKind(r.entry.kind) && Norm(r.entry.ref) == r.entry.ref && Trim(r.entry.ref) != ""
  }

  /** What a normalised request looks like. */
  ghost predicate NormalRequest(r: Request) {
    && NormalScopeList(r.scope) && NormalPermissionList(r.permissions)
    && NormalBinding(r.subject) && NormalBinding(r.grantee) && NormalBinding(r.marketMakerId)
    && NormalResource(r.resource)
    && (r.actionContext.Some? ==> IsObject(r.actionContext.value))
  }

  ghost predicate NormalBinding(b: Option<string>) {
    b.Some? ==> Trim(b.value) == b.value && b.value != ""
  }

  function Normalized(input: EnforcementInput): Option<Request> {
    match ParseEnforcementRequest(input)
    case None => None
    case Some(r) => Some(NormalizeEnforcementRequest(r))
  }

  lemma ParsedScopeNormal(v: Value)
    requires RequestedScopeParses(v)
    ensures NormalScopeList(SortedSet(ParseScope(v.items), ScopeLeq))
  {
    var scope := ParseScope(v.items);
    ScopeOrder();
    SortedSetMembers(scope, ScopeLeq);
    forall e | e in scope ensures ValidKind(e.kind) && Norm(e.ref) == e.ref && Trim(e.ref) != "" {
      var i :| 0 <= i < |scope| && scope[i] == e;
      assert v.items[i] in v.items;
      NormIdempotent(v.items[i].ref.s);
    }
  }

  lemma ParsedPermissionsNormal(v: Value)
    requires RequestedPermissionsParse(v)
    ensures NormalPermissions(ParsePermissions(v.items)) == ParsePermissions(v.items)
    ensures NormalPermissionList(SortedSet(ParsePermissions(v.items), StrLeq))
  {
    var permissions := ParsePermissions(v.items);
    StringOrder();
    SortedSetMembers(permissions, StrLeq);
    forall i | 0 <= i < |permissions| ensures Norm(permissions[i]) == permissions[i] && Trim(permissions[i]) != "" {
      assert v.items[i] in v.items;
      NormIdempotent(v.items[i].s);
    }
  }

  lemma ParsedBindingNormal(v: Value)
    requires BindingParses(v)
    ensures NormalBinding(ParseBinding(v))
  {
    if v.Str? { TrimIdempotent(v.s); }
  }

  lemma NormalizedIsNormal(input: EnforcementInput)
    requires Normalized(input).Some?
    ensures NormalRequest(Normalized(input).value)
  {
    ParsedScopeNormal(input.scope);
    ParsedPermissionsNormal(input.permissions);
    ParsedBindingNormal(input.subject);
    ParsedBindingNormal(input.grantee);
    ParsedBindingNormal(input.marketMakerId);
    if input.resource.Entry? { NormIdempotent(input.resource.ref.s); }
  }

  // ---------- a typed request as an incoming one ----------

  function EmbedResource(r: ResourceField): Value {
    match r
    case NoResource => Undefined
    case NullResource => Null
    case Resource(e) => Entry(Str(e.kind), Str(e.ref))
  }

  function EmbedRequest(r: Request): EnforcementInput {
    RequestRecord(
      Some(r.capability), EmbedScope(r.scope), EmbedStrings(r.permissions), StrOpt(r.subject), StrOpt(r.grantee),
      StrOpt(r.marketMakerId), EmbedResource(r.resource),
      if r.actionContext.Some? then r.actionContext.value else Undefined,
      if r.now.Some? then At(r.now.value) else NoNow)
  }

  lemma NormalScopeReparses(scope: seq<Scope>)
    requires NormalScopeList(scope)
    ensures RequestedScopeParses(EmbedScope(scope))
    ensures SortedSet(ParseScope(EmbedScope(scope).items), ScopeLeq) == scope
  {
    forall i | 0 <= i < |scope|
      ensures EntryParses(EmbedScope(scope).items[i]) && ParseEntry(EmbedScope(scope).items[i]) == scope[i]
    {
      assert scope[i] in scope;
      ValidKindPlain(scope[i].kind);
    }
    assert ParseScope(EmbedScope(scope).items) == scope;
    DedupeFixed(scope);
    SortFixed(scope, ScopeLeq);
  }

  lemma NormalStay(permissions: seq<string>)
    requires forall p | p in permissions :: Norm(p) == p
    ensures NormalPermissions(permissions) == permissions
  {
    assert forall i | 0 <= i < |permissions| :: permissions[i] in permissions;
  }

  lemma NormalPermissionsReparse(permissions: seq<string>)
    requires NormalPermissionList(permissions)
    ensures RequestedPermissionsParse(EmbedStrings(permissions))
    ensures SortedSet(NormalPermissions(ParsePermissions(EmbedStrings(permissions).items)), StrLeq) == permissions
  {
    var items := EmbedStrings(permissions).items;
    forall i | 0 <= i < |permissions| ensures NonBlank(items[i]) && Norm(items[i].s) == permissions[i] {
      assert items[i] == Str(permissions[i]) && permissions[i] in permissions;
    }
    NormalStay(permissions);
    assert ParsePermissions(items) == NormalPermissions(permissions);
    DedupeFixed(permissions);
    SortFixed(permissions, StrLeq);
  }

  lemma NormalBindingReparses(b: Option<string>)
    requires NormalBinding(b)
    ensures BindingParses(StrOpt(b)) && ParseBinding(StrOpt(b)) == b
  {
  }

  lemma NormalResourceReparses(r: ResourceField)
    requires NormalResource(r)
    ensures ResourceParses(EmbedResource(r)) && ParseResource(EmbedResource(r)) == r
  {
    if r.Resource? {
      ValidKindPlain(r.entry.kind);
    }
  }

  /** Normalising a normalised request changes nothing: a request may pass the parser twice. */
  lemma NormalizeIdempotent(r: Request)
    requires NormalRequest(r)
    ensures Normalized(EmbedRequest(r)) == Some(r)
  {
    var input := EmbedRequest(r);
    NormalScopeReparses(r.scope);
    NormalPermissionsReparse(r.permissions);
    NormalBindingReparses(r.subject);
    NormalBindingReparses(r.grantee);
    NormalBindingReparses(r.marketMakerId);
    NormalResourceReparses(r.resource);
    assert RequestParses(input);
    var p := ParseEnforcementRequest(input).value;
    assert NormalizeEnforcementRequest(p) == r;
  }

  // ---------- finding the first mismatch ----------

  datatype Match<T> = Match(matched: seq<T>, mismatch: Option<T>)

  /** The longest allowed prefix of the requested entries, and the entry that ends it. */
  ghost predicate IsMatch<T>(m: Match<T>, requested: seq<T>, allowed: T -> bool) {
    && m.matched <= requested
    && (forall x | x in m.matched :: allowed(x))
    && match m.mismatch
       case None => m.matched == requested
       case Some(x) => |m.matched| < |requested| && x == requested[|m.matched|] && !allowed(x)
  }

  function FirstMismatch<T>(requested: seq<T>, allowed: T -> bool): (m: Match<T>)
    ensures IsMatch(m, requested, allowed)
  {
    if requested == [] then Match([], None)
    else if !allowed(requested[0]) then Match([], Some(requested[0]))
    else
      var rest := FirstMismatch(requested[1..], allowed);
      assert requested == [requested[0]] + requested[1..];
      Match([requested[0]] + rest.matched, rest.mismatch)
  }

  lemma MatchUnique<T>(a: Match<T>, b: Match<T>, requested: seq<T>, allowed: T -> bool)
    requires IsMatch(a, requested, allowed) && IsMatch(b, requested, allowed)
    ensures a == b
  {
  }

  function ScopeIn(allowedScope: seq<Scope>): Scope -> bool {
    e => Key(e) in Keys(allowedScope)
  }

  function PermissionIn(allowedPermissions: seq<string>): string -> bool {
    p => p in allowedPermissions
  }

  method FindScopeMismatch(requested: seq<Scope>, allowedScope: seq<Scope>) returns (m: Match<Scope>)
    ensures m == FirstMismatch(requested, ScopeIn(allowedScope))
  {
    var allowed := Keys(allowedScope);
    var matched: seq<Scope> := [];
    for i := 0 to |requested|
      invariant matched == requested[..i]
      invariant forall e | e in matched :: Key(e) in allowed
    {
      if Key(requested[i]) !in allowed {
        m := Match(matched, Some(requested[i]));
        MatchUnique(m, FirstMismatch(requested, ScopeIn(allowedScope)), requested, ScopeIn(allowedScope));
        return;
      }
      matched := matched + [requested[i]];
    }
    m := Match(matched, None);
    MatchUnique(m, FirstMismatch(requested, ScopeIn(allowedScope)), requested, ScopeIn(allowedScope));
  }

  method FindPermissionMismatch(requested: seq<string>, allowedPermissions: seq<string>) returns (m: Match<string>)
    ensures m == FirstMismatch(requested, PermissionIn(allowedPermissions))
  {
    var allowed := set p | p in allowedPermissions;
    var matched: seq<string> := [];
    for i := 0 to |requested|
      invariant matched == requested[..i]
      invariant forall p | p in matched :: p in allowedPermissions
    {
      if requested[i] !in allowed {
        m := Match(matched, Some(requested[i]));
        MatchUnique(m, FirstMismatch(requested, PermissionIn(allowedPermissions)), requested,
                    PermissionIn(allowedPermissions));
        return;
      }
      matched := matched + [requested[i]];
    }
    m := Match(matched, None);
    MatchUnique(m, FirstMismatch(requested, PermissionIn(allowedPermissions)), requested,
                PermissionIn(allowedPermissions));
  }

  // ---------- the decision ----------

  datatype ReasonCode =
    | CapabilityInvalid
    | CapabilityExpired
    | CapabilityRevoked
    | CapabilityRevocationUnknown
    | CapabilityNotYetActive
    | ScopeNotAllowed
    | PermissionNotAllowed
    | SubjectMismatch
    | GranteeMismatch
    | MarketMakerMismatch
    | RequestInvalid
    | EnforcementAllow

  datatype Decision = Decision(
    allowed: bool, reason: ReasonCode, evaluatedAt: Instant, request: Option<Request>,
    capability: Option<Capability>, matchedScope: Option<seq<Scope>>, matchedPermissions: Option<seq<string>>)

  function StateReason(state: State): ReasonCode {
    match state
    case Expired => CapabilityExpired
    case RevokedState => CapabilityRevoked
    case RevocationUnknown => CapabilityRevocationUnknown
    case NotYetActive => CapabilityNotYetActive
    case Invalid => CapabilityInvalid
    case Active => EnforcementAllow
  }

  function AccessOf(r: Request, now: Instant): AccessRequest {
    AccessRequest(
      r.scope, r.permissions, r.subject, r.grantee, r.marketMakerId, if r.now.Some? then r.now.value else now)
  }

  /** Reading `now` off `null`, or telling the time of a `now` that is no date, is an exception and not a denial. */
  predicate EnforcementThrows(input: EnforcementInput) {
    input.NullRequest? || (input.RequestRecord? && input.now.BadNow?)
  }

  /** The decision, `None` when an exception is thrown instead. */
  function EvaluateEnforcement(input: EnforcementInput, clock: Instant, port: Port, hash: HashFn): Option<Decision> {
    if EnforcementThrows(input) then None else Some(Enforce(input, clock, port, hash))
  }

  predicate Allows(outcome: Option<Decision>) {
    outcome.Some? && outcome.value.allowed
  }

  /** `clock` is the time used when the request carries none. The capability's normal form goes back to the
      state and access checks, which verify it once more. */
  function Enforce(input: EnforcementInput, clock: Instant, port: Port, hash: HashFn): Decision {
    var now := if input.RequestRecord? && input.now.At? then input.now.at else clock;
    match Normalized(input)
    case None => Decision(false, RequestInvalid, now, None, None, None, None)
    case Some(r) =>
      match VerifyCapability(r.capability, hash)
      case Rejected(_) => Decision(false, CapabilityInvalid, now, Some(r), None, None, None)
      case Accepted(c) => DecideVerified(r, c, VerifyCapability(Embed(c), hash), now, port)
  }

  function DecideVerified(r: Request, c: Capability, again: Verification, now: Instant, port: Port): Decision {
    var state := StateOf(again, AccessOf(r, now).now, port);
    if state != Active then Decision(false, StateReason(state), now, Some(r), Some(c), None, None)
    else DecideRequest(r, c, again, now, port)
  }

  function DecideRequest(r: Request, c: Capability, again: Verification, now: Instant, port: Port): Decision {
    var scope := FirstMismatch(r.scope, ScopeIn(c.scope));
    var permissions := FirstMismatch(r.permissions, PermissionIn(c.permissions));
    var deny := (reason: ReasonCode) =>
      Decision(false, reason, now, Some(r), Some(c), Some(scope.matched), Some(permissions.matched));
    if scope.mismatch.Some? then deny(ScopeNotAllowed).(matchedPermissions := None)
    else if permissions.mismatch.Some? then deny(PermissionNotAllowed)
    else if !BindingMatches(r.subject, Some(c.subject)) then deny(SubjectMismatch)
    else if !BindingMatches(r.grantee, Some(c.grantee)) then deny(GranteeMismatch)
    else if !BindingMatches(r.marketMakerId, c.marketMakerId) then deny(ReasonCode.MarketMakerMismatch)
    else if !AccessFor(again, AccessOf(r, now), port) then deny(RequestInvalid)
    else Decision(true, EnforcementAllow, now, Some(r), Some(c), Some(scope.matched), Some(permissions.matched))
  }

  // ---------- agreement of the two decisions ----------

  /** On a normal request, the access check sees through to the entries and permissions themselves. */
  lemma AccessOnNormal(c: Capability, r: Request, now: Instant, port: Port)
    requires NormalRequest(r)
    ensures AccessFor(Accepted(c), AccessOf(r, now), port) <==>
      && StateOf(Accepted(c), AccessOf(r, now).now, port) == Active
      && BindingMatches(r.subject, Some(c.subject)) && BindingMatches(r.grantee, Some(c.grantee))
      && BindingMatches(r.marketMakerId, c.marketMakerId)
      && (forall e | e in r.scope :: Key(e) in Keys(c.scope))
      && (forall p | p in r.permissions :: p in c.permissions)
  {
    assert forall e | e in r.scope :: NormalEntry(e) == e;
  }

  /** Once the capability is known active, the closing access check repeats the checks before it, so
      it never turns an allowed request down, and the decision is that access check's. */
  lemma ClosingCheckAgrees(r: Request, c: Capability, now: Instant, port: Port)
    requires NormalRequest(r) && StateOf(Accepted(c), AccessOf(r, now).now, port) == Active
    ensures var d := DecideRequest(r, c, Accepted(c), now, port);
      && (d.allowed <==> AccessFor(Accepted(c), AccessOf(r, now), port))
      && d.reason != RequestInvalid
      && (d.allowed <==> d.reason == EnforcementAllow)
      && d.capability == Some(c)
      && (d.allowed ==> d.matchedScope == Some(r.scope) && d.matchedPermissions == Some(r.permissions))
  {
    AccessOnNormal(c, r, now, port);
  }

  lemma VerifiedAgrees(r: Request, c: Capability, now: Instant, port: Port)
    requires NormalRequest(r)
    ensures var d := DecideVerified(r, c, Accepted(c), now, port);
      && (d.allowed <==> AccessFor(Accepted(c), AccessOf(r, now), port))
      && d.reason != RequestInvalid
      && (d.allowed <==> d.reason == EnforcementAllow)
      && d.capability == Some(c)
      && (d.allowed ==> d.matchedScope == Some(r.scope) && d.matchedPermissions == Some(r.permissions))
  {
    if StateOf(Accepted(c), AccessOf(r, now).now, port) == Active {
      ClosingCheckAgrees(r, c, now, port);
    }
  }

  /** The two decision procedures agree: a request is enforced exactly when it parses and the access check
      allows its normal form; the closing denial is never issued, so `RequestInvalid` means a parse failure; and
      there is no decision at all exactly for `null` and for a `now` that is no date. */
  lemma DecisionsAgree(input: EnforcementInput, clock: Instant, port: Port, hash: HashFn)
    ensures var outcome := EvaluateEnforcement(input, clock, port, hash);
      var parsed := Normalized(input);
      && (outcome.None? <==> input.NullRequest? || (input.RequestRecord? && input.now.BadNow?))
      && (outcome.None? ==> parsed.None?)
      && (Allows(outcome) <==>
            && parsed.Some?
            && EvaluateCapabilityAccess(parsed.value.capability, AccessOf(parsed.value, clock), port, hash))
      && (outcome.Some? ==> Explains(outcome.value, parsed, hash))
  {
    if Normalized(input).Some? {
      var r := Normalized(input).value;
      NormalizedIsNormal(input);
      var now := if input.now.At? then input.now.at else clock;
      assert AccessOf(r, now) == AccessOf(r, clock);
      if VerifyCapability(r.capability, hash).Accepted? {
        VerifiedStays(r.capability, hash);
        VerifiedAgrees(r, VerifyCapability(r.capability, hash).capability, now, port);
      }
    }
  }

  /** What a decision reports beside the answer. */
  ghost predicate Explains(d: Decision, parsed: Option<Request>, hash: HashFn) {
    && (d.reason == RequestInvalid <==> parsed.None?)
    && (d.allowed <==> d.reason == EnforcementAllow)
    && (d.allowed ==>
          && parsed.Some?
          && VerifyCapability(parsed.value.capability, hash).Accepted?
          && d.capability == Some(VerifyCapability(parsed.value.capability, hash).capability)
          && d.matchedScope == Some(parsed.value.scope) && d.matchedPermissions == Some(parsed.value.permissions))
  }

  // ---------- agreement on requests as typed by a caller ----------

  function TrimOption(o: Option<string>): Option<string> {
    match o
    case None => None
    case Some(s) => Some(Trim(s))
  }

  /** The padding that only the enforcement parser removes: around kinds and bindings. */
  function TrimRequest(q: AccessRequest): AccessRequest {
    q.(scope := seq(|q.scope|, i requires 0 <= i < |q.scope| => Scope(Trim(q.scope[i].kind), q.scope[i].ref)),
       subject := TrimOption(q.subject), grantee := TrimOption(q.grantee), marketMakerId := TrimOption(q.marketMakerId))
  }

  /** An access request sent through enforcement instead. */
  function AsEnforcement(capability: CapabilityInput, q: AccessRequest): EnforcementInput {
    RequestRecord(
      Some(capability), EmbedScope(q.scope), EmbedStrings(q.permissions), StrOpt(q.subject), StrOpt(q.grantee),
      StrOpt(q.marketMakerId), Undefined, Undefined, At(q.now))
  }

  /** The spelling of the requested entry does not matter, and what the parser refuses no capability allows. */
  lemma RequestedEntryAgrees(e: Scope, allowed: seq<Scope>)
    requires forall x | x in allowed :: ValidEntry(x)
    ensures EntryAllowed(e, allowed) <==> ItemAllowed(Entry(Str(e.kind), Str(e.ref)), allowed)
  {
    var normal := Scope(Trim(e.kind), Norm(e.ref));
    KeyMember(normal, allowed);
  }

  /** An entry as typed is readable, and its normal form allowed. */
  predicate EntryAllowed(e: Scope, allowed: seq<Scope>) {
    Trim(e.ref) != "" && Key(Scope(Trim(e.kind), Norm(e.ref))) in Keys(allowed)
  }

  predicate ItemAllowed(v: Value, allowed: seq<Scope>) {
    EntryParses(v) && Key(ParseEntry(v)) in Keys(allowed)
  }

  /** The parsed, de-duplicated and sorted list is allowed exactly when each item is. */
  lemma ParsedItemsAllowed(items: seq<Value>, allowed: seq<Scope>)
    requires forall v | v in items :: EntryParses(v)
    ensures (forall e | e in SortedSet(ParseScope(items), ScopeLeq) :: Key(e) in Keys(allowed))
       <==> (forall i | 0 <= i < |items| :: Key(ParseEntry(items[i])) in Keys(allowed))
  {
    var parsed := ParseScope(items);
    ScopeOrder();
    SortedSetMembers(parsed, ScopeLeq);
    assert forall i | 0 <= i < |parsed| :: parsed[i] in parsed && parsed[i] == ParseEntry(items[i]);
    assert forall e | e in parsed :: exists i | 0 <= i < |items| :: parsed[i] == e;
  }

  lemma RequestedScopeAgrees(scope: seq<Scope>, allowed: seq<Scope>)
    requires forall x | x in allowed :: ValidEntry(x)
    ensures
      scope != [] && (forall i | 0 <= i < |scope| :: EntryAllowed(scope[i], allowed))
      <==>
      && RequestedScopeParses(EmbedScope(scope))
      && forall e | e in SortedSet(ParseScope(EmbedScope(scope).items), ScopeLeq) :: Key(e) in Keys(allowed)
  {
    var items := EmbedScope(scope).items;
    forall i | 0 <= i < |scope| ensures EntryAllowed(scope[i], allowed) <==> ItemAllowed(items[i], allowed) {
      RequestedEntryAgrees(scope[i], allowed);
    }
    assert forall i | 0 <= i < |items| :: items[i] in items;
    if RequestedScopeParses(EmbedScope(scope)) {
      ParsedItemsAllowed(items, allowed);
    } else if scope != [] {
      var e :| e in items && !EntryParses(e);
      var i :| 0 <= i < |items| && items[i] == e;
      assert !ItemAllowed(items[i], allowed);
    }
  }

  predicate PermissionAllowed(p: string, allowed: seq<string>) {
    Trim(p) != "" && Norm(p) in allowed
  }

  lemma ParsedPermissionAt(permissions: seq<string>, p: string)
    requires RequestedPermissionsParse(EmbedStrings(permissions))
    ensures p in ParsePermissions(EmbedStrings(permissions).items)
       <==> exists i | 0 <= i < |permissions| :: Norm(permissions[i]) == p
  {
    var parsed := ParsePermissions(EmbedStrings(permissions).items);
    assert forall i | 0 <= i < |parsed| :: parsed[i] == Norm(permissions[i]);
    if i :| 0 <= i < |permissions| && Norm(permissions[i]) == p {
      assert parsed[i] == p;
    }
  }

  lemma ParsedPermissionsAllowed(permissions: seq<string>, allowed: seq<string>)
    requires RequestedPermissionsParse(EmbedStrings(permissions))
    ensures (forall p | p in SortedSet(NormalPermissions(ParsePermissions(EmbedStrings(permissions).items)), StrLeq) ::
               p in allowed)
       <==> (forall i | 0 <= i < |permissions| :: Norm(permissions[i]) in allowed)
  {
    var parsed := ParsePermissions(EmbedStrings(permissions).items);
    ParsedPermissionsNormal(EmbedStrings(permissions));
    StringOrder();
    SortedSetMembers(parsed, StrLeq);
    forall p ensures p in parsed <==> exists i | 0 <= i < |permissions| :: Norm(permissions[i]) == p {
      ParsedPermissionAt(permissions, p);
    }
  }

  lemma PermissionsParseExactly(permissions: seq<string>)
    ensures RequestedPermissionsParse(EmbedStrings(permissions)) <==>
      permissions != [] && forall i | 0 <= i < |permissions| :: Trim(permissions[i]) != ""
  {
    var items := EmbedStrings(permissions).items;
    assert forall i | 0 <= i < |permissions| :: items[i] == Str(permissions[i]) && items[i] in items;
    if permissions != [] && !RequestedPermissionsParse(EmbedStrings(permissions)) {
      var p :| p in items && !NonBlank(p);
      var i :| 0 <= i < |items| && items[i] == p;
      assert Trim(permissions[i]) == "";
    }
  }

  lemma RequestedPermissionsAgree(permissions: seq<string>, allowed: seq<string>)
    ensures
      permissions != [] && (forall i | 0 <= i < |permissions| :: PermissionAllowed(permissions[i], allowed))
      <==>
      && RequestedPermissionsParse(EmbedStrings(permissions))
      && forall p | p in SortedSet(NormalPermissions(ParsePermissions(EmbedStrings(permissions).items)), StrLeq) ::
        p in allowed
  {
    PermissionsParseExactly(permissions);
    if RequestedPermissionsParse(EmbedStrings(permissions)) {
      ParsedPermissionsAllowed(permissions, allowed);
    }
  }

  lemma RequestedBindingAgrees(b: Option<string>, actual: Option<string>)
    requires actual.Some? ==> actual.value != ""
    ensures BindingMatches(TrimOption(b), actual) <==>
      BindingParses(StrOpt(b)) && BindingMatches(ParseBinding(StrOpt(b)), actual)
  {
  }

  /** For every access request a caller may type, in whatever spelling: enforcement allows it exactly when the
      access check does, once the padding around kinds and bindings is removed. */
  lemma EnforcementAgreesWithAccess(input: CapabilityInput, q: AccessRequest, clock: Instant, port: Port, hash: HashFn)
    ensures Allows(EvaluateEnforcement(AsEnforcement(input, q), clock, port, hash))
      <==> EvaluateCapabilityAccess(input, TrimRequest(q), port, hash)
  {
    var e := AsEnforcement(input, q);
    DecisionsAgree(e, clock, port, hash);
    var verification := VerifyCapability(input, hash);
    if verification.Accepted? {
      VerifyIsFixpoint(input, hash);
      AcceptedAgrees(verification.capability, input, q, clock, port);
    }
  }

  /** What the access check asks of a request as typed, entry by entry. */
  lemma AccessOnTyped(c: Capability, q: AccessRequest, port: Port)
    ensures AccessFor(Accepted(c), TrimRequest(q), port) <==>
      && StateOf(Accepted(c), q.now, port) == Active
      && BindingMatches(TrimOption(q.subject), Some(c.subject))
      && BindingMatches(TrimOption(q.grantee), Some(c.grantee))
      && BindingMatches(TrimOption(q.marketMakerId), c.marketMakerId)
      && q.scope != [] && (forall i | 0 <= i < |q.scope| :: EntryAllowed(q.scope[i], c.scope))
      && q.permissions != [] && (forall i | 0 <= i < |q.permissions| ::
        PermissionAllowed(q.permissions[i], c.permissions))
  {
    var t := TrimRequest(q);
    forall i | 0 <= i < |t.scope|
      ensures t.scope[i] in t.scope && t.scope[i].ref == q.scope[i].ref
      ensures NormalEntry(t.scope[i]) == Scope(Trim(q.scope[i].kind), Norm(q.scope[i].ref))
    {
    }
    assert forall i | 0 <= i < |q.permissions| :: q.permissions[i] in t.permissions;
  }

  /** The same, of the request once parsed and normalised. */
  lemma AccessOnParsed(c: Capability, input: CapabilityInput, q: AccessRequest, clock: Instant, port: Port)
    requires Normalized(AsEnforcement(input, q)).Some?
    ensures AccessFor(Accepted(c), AccessOf(Normalized(AsEnforcement(input, q)).value, clock), port) <==>
      && StateOf(Accepted(c), q.now, port) == Active
      && BindingMatches(ParseBinding(StrOpt(q.subject)), Some(c.subject))
      && BindingMatches(ParseBinding(StrOpt(q.grantee)), Some(c.grantee))
      && BindingMatches(ParseBinding(StrOpt(q.marketMakerId)), c.marketMakerId)
      && (forall e | e in SortedSet(ParseScope(EmbedScope(q.scope).items), ScopeLeq) :: Key(e) in Keys(c.scope))
      && (forall p | p in SortedSet(NormalPermissions(ParsePermissions(EmbedStrings(q.permissions).items)), StrLeq) ::
            p in c.permissions)
  {
    NormalizedIsNormal(AsEnforcement(input, q));
    AccessOnNormal(c, Normalized(AsEnforcement(input, q)).value, clock, port);
  }

  lemma AcceptedAgrees(c: Capability, input: CapabilityInput, q: AccessRequest, clock: Instant, port: Port)
    requires (forall e | e in c.scope :: ValidEntry(e)) && c.subject != "" && c.grantee != "" && NamedMarketMaker(c)
    ensures AccessFor(Accepted(c), TrimRequest(q), port) <==>
      && Normalized(AsEnforcement(input, q)).Some?
      && AccessFor(Accepted(c), AccessOf(Normalized(AsEnforcement(input, q)).value, clock), port)
  {
    RequestedScopeAgrees(q.scope, c.scope);
    RequestedPermissionsAgree(q.permissions, c.permissions);
    RequestedBindingAgrees(q.subject, Some(c.subject));
    RequestedBindingAgrees(q.grantee, Some(c.grantee));
    RequestedBindingAgrees(q.marketMakerId, c.marketMakerId);
    AccessOnTyped(c, q, port);
    if Normalized(AsEnforcement(input, q)).Some? {
      AccessOnParsed(c, input, q, clock, port);
    }
  }
}
