/** Protocol consents: parsing, normalisation, validation and the state at an instant. */
module Consent {
  import opened Options
  import opened Text
  import opened Sorting
  import opened Values

  datatype ConsentInput =
    | NotAnObject
    | ConsentRecord(
        version: Value, subject: Value, grantee: Value, action: Value, scope: Value, permissions: Value,
        marketMakerId: Value, revokeTarget: Value, issuedAt: Value, expiresAt: Value, priorConsent: Value,
        consentHash: Value)

  datatype Action = Grant | Revoke

  datatype Consent = Consent(
    version: string, subject: string, grantee: string, action: Action, scope: seq<Scope>,
    permissions: seq<string>, marketMakerId: Option<string>, revokeTarget: Option<string>,
    issuedAt: string, expiresAt: Option<string>, priorConsent: Option<string>, consentHash: string)

  // ---------- parsing and normalising ----------

  predicate ParsableScope(v: Value) {
    v.Arr? && v.items != [] && forall e | e in v.items :: e.Entry? && e.kind.Str? && NonBlank(e.ref)
  }

  predicate ParsablePermissions(v: Value) {
    v.Arr? && v.items != [] && forall p | p in v.items :: NonBlank(p)
  }

  predicate Parsable(input: ConsentInput, parseDate: DateParse) {
    && input.ConsentRecord?
    && NonBlank(input.subject)
    && NonBlank(input.grantee)
    && (input.action == Str("grant") || input.action == Str("revoke"))
    && ParsableScope(input.scope)
    && ParsablePermissions(input.permissions)
    && input.issuedAt.Str? && parseDate(input.issuedAt.s).Some?
    && NonBlank(input.consentHash)
  }

  /** The fields parsing lets through unchecked are trimmed by normalisation, which fails on the wrong type. */
  predicate Normalisable(input: ConsentInput)
    requires input.ConsentRecord?
  {
    && input.version.Str?
    && (input.expiresAt.Null? || input.expiresAt.Str?)
    && (input.priorConsent.Null? || input.priorConsent.Str?)
    && (input.marketMakerId.Undefined? || input.marketMakerId.Str?)
    && (input.revokeTarget.Undefined? || (input.revokeTarget.Hashed? && input.revokeTarget.capabilityHash.Str?))
  }

  function ReadScope(items: seq<Value>): (scope: seq<Scope>)
    requires forall e | e in items :: e.Entry? && e.kind.Str? && e.ref.Str?
    ensures |scope| == |items|
    ensures forall i | 0 <= i < |items| :: items[i] in items && scope[i] == Scope(items[i].kind.s, Norm(items[i].ref.s))
  {
    seq(|items|, i requires 0 <= i < |items| =>
      assert items[i] in items; Scope(items[i].kind.s, Norm(items[i].ref.s)))
  }

  function ReadPermissions(items: seq<Value>): (permissions: seq<string>)
    requires forall p | p in items :: p.Str?
    ensures |permissions| == |items|
    ensures forall i | 0 <= i < |items| :: items[i] in items && permissions[i] == Norm(items[i].s)
  {
    seq(|items|, i requires 0 <= i < |items| => assert items[i] in items; Norm(items[i].s))
  }

  datatype ConsentError = ParseError | TypeError

  function NormalizeConsent(input: ConsentInput, parseDate: DateParse): Result<Consent, ConsentError> {
    if !Parsable(input, parseDate) then Err(ParseError)
    else if !Normalisable(input) then Err(TypeError)
    else Ok(ReadConsent(input))
  }

  function ReadConsent(input: ConsentInput): Consent
    requires input.ConsentRecord? && Normalisable(input)
    requires input.subject.Str? && input.grantee.Str? && input.issuedAt.Str? && input.consentHash.Str?
    requires ParsableScope(input.scope) && ParsablePermissions(input.permissions)
  {
    Consent(
      Trim(input.version.s),
      Trim(input.subject.s),
      Trim(input.grantee.s),
      if input.action == Str("grant") then Grant else Revoke,
      Sort(ReadScope(input.scope.items), ScopeLeq),
      Sort(ReadPermissions(input.permissions.items), StrLeq),
      if input.marketMakerId.Str? then Some(Trim(input.marketMakerId.s)) else None,
      if input.revokeTarget.Hashed? then Some(Norm(input.revokeTarget.capabilityHash.s)) else None,
      Trim(input.issuedAt.s),
      if input.expiresAt.Str? then Some(Trim(input.expiresAt.s)) else None,
      if input.priorConsent.Str? then Some(Norm(input.priorConsent.s)) else None,
      Norm(input.consentHash.s))
  }

  /** A record that reads as a consent, in whatever spelling. */
  ghost predicate Spells(input: ConsentInput, c: Consent) {
    && input.ConsentRecord?
    && input.version.Str? && Trim(input.version.s) == c.version
    && input.subject.Str? && Trim(input.subject.s) == c.subject
    && input.grantee.Str? && Trim(input.grantee.s) == c.grantee
    && input.action == Str(if c.action.Grant? then "grant" else "revoke")
    && SpellsLists(input.scope, input.permissions, c)
    && (if c.marketMakerId.Some?
        then input.marketMakerId.Str? && Trim(input.marketMakerId.s) == c.marketMakerId.value
        else input.marketMakerId == Undefined)
    && (if c.revokeTarget.Some?
        then input.revokeTarget.Hashed? && input.revokeTarget.capabilityHash.Str?
          && Norm(input.revokeTarget.capabilityHash.s) == c.revokeTarget.value
        else input.revokeTarget == Undefined)
    && input.issuedAt.Str? && Trim(input.issuedAt.s) == c.issuedAt
    && (if c.expiresAt.Some?
        then input.expiresAt.Str? && Trim(input.expiresAt.s) == c.expiresAt.value
        else input.expiresAt == Null)
    && (if c.priorConsent.Some?
        then input.priorConsent.Str? && Norm(input.priorConsent.s) == c.priorConsent.value
        else input.priorConsent == Null)
    && input.consentHash.Str? && Norm(input.consentHash.s) == c.consentHash
  }

  /** The same entries and permissions, as often, in any order. */
  ghost predicate SpellsLists(scope: Value, permissions: Value, c: Consent) {
    && scope.Arr? && permissions.Arr?
    && (forall v | v in scope.items :: v.Entry? && v.kind.Str? && v.ref.Str?)
    && (forall v | v in permissions.items :: v.Str?)
    && multiset(ReadScope(scope.items)) == multiset(c.scope)
    && multiset(ReadPermissions(permissions.items)) == multiset(c.permissions)
  }

  lemma ListsSpelled(scope: Value, permissions: Value, c: Consent)
    requires ParsableScope(scope) && ParsablePermissions(permissions)
    ensures (c.scope == Sort(ReadScope(scope.items), ScopeLeq)
             && c.permissions == Sort(ReadPermissions(permissions.items), StrLeq))
       <==> SpellsLists(scope, permissions, c) && Sorted(c.scope, ScopeLeq) && Sorted(c.permissions, StrLeq)
  {
    var entries, read := ReadScope(scope.items), ReadPermissions(permissions.items);
    ScopeOrder();
    StringOrder();
    SortCorrect(entries, ScopeLeq);
    SortCorrect(read, StrLeq);
    if SpellsLists(scope, permissions, c) && Sorted(c.scope, ScopeLeq) && Sorted(c.permissions, StrLeq) {
      SortedUnique(Sort(entries, ScopeLeq), c.scope, ScopeLeq);
      SortedUnique(Sort(read, StrLeq), c.permissions, StrLeq);
    }
  }

  /** Nothing a consent must have is missing or blank. */
  ghost predicate Filled(c: Consent) {
    && c.subject != "" && c.grantee != "" && c.consentHash != "" && c.scope != [] && c.permissions != []
    && (forall e | e in c.scope :: e.ref != "") && (forall p | p in c.permissions :: p != "")
  }

  lemma NormBlank(s: string)
    ensures Norm(s) == "" <==> Trim(s) == ""
  {
  }

  lemma ScopeFilled(scope: Value, entries: seq<Scope>)
    requires scope.Arr? && (forall v | v in scope.items :: v.Entry? && v.kind.Str? && v.ref.Str?)
    requires multiset(ReadScope(scope.items)) == multiset(entries)
    ensures ParsableScope(scope) <==> entries != [] && forall e | e in entries :: e.ref != ""
  {
    var read := ReadScope(scope.items);
    SameElements(read, entries);
    forall i | 0 <= i < |read| ensures read[i].ref == "" <==> !NonBlank(scope.items[i].ref) {
      NormBlank(scope.items[i].ref.s);
    }
    assert forall i | 0 <= i < |read| :: read[i] in read;
  }

  lemma PermissionsFilled(permissions: Value, texts: seq<string>)
    requires permissions.Arr? && (forall v | v in permissions.items :: v.Str?)
    requires multiset(ReadPermissions(permissions.items)) == multiset(texts)
    ensures ParsablePermissions(permissions) <==> texts != [] && forall p | p in texts :: p != ""
  {
    var read := ReadPermissions(permissions.items);
    SameElements(read, texts);
    forall i | 0 <= i < |read| ensures read[i] == "" <==> !NonBlank(permissions.items[i]) {
      NormBlank(permissions.items[i].s);
    }
    assert forall i | 0 <= i < |read| :: read[i] in read;
  }

  /** Normalisation gives a consent exactly when the record spells it, its lists are in order, nothing is blank, and the
      issue date can be read. */
  lemma NormalizedIff(input: ConsentInput, c: Consent, parseDate: DateParse)
    ensures NormalizeConsent(input, parseDate) == Ok(c) <==>
      && Spells(input, c) && Filled(c) && parseDate(input.issuedAt.s).Some?
      && Sorted(c.scope, ScopeLeq) && Sorted(c.permissions, StrLeq)
  {
    if NormalizeConsent(input, parseDate) == Ok(c) {
      NormalizedSpells(input, c, parseDate);
    }
    if Spells(input, c) && Filled(c) && parseDate(input.issuedAt.s).Some?
      && Sorted(c.scope, ScopeLeq) && Sorted(c.permissions, StrLeq)
    {
      SpelledNormalizes(input, c, parseDate);
    }
  }

  lemma NormalizedSpells(input: ConsentInput, c: Consent, parseDate: DateParse)
    requires NormalizeConsent(input, parseDate) == Ok(c)
    ensures Spells(input, c) && Filled(c) && parseDate(input.issuedAt.s).Some?
    ensures Sorted(c.scope, ScopeLeq) && Sorted(c.permissions, StrLeq)
  {
    ListsSpelled(input.scope, input.permissions, c);
    ScopeFilled(input.scope, c.scope);
    PermissionsFilled(input.permissions, c.permissions);
    NormBlank(input.consentHash.s);
  }

  lemma SpelledNormalizes(input: ConsentInput, c: Consent, parseDate: DateParse)
    requires Spells(input, c) && Filled(c) && parseDate(input.issuedAt.s).Some?
    requires Sorted(c.scope, ScopeLeq) && Sorted(c.permissions, StrLeq)
    ensures NormalizeConsent(input, parseDate) == Ok(c)
  {
    ScopeFilled(input.scope, c.scope);
    PermissionsFilled(input.permissions, c.permissions);
    ListsSpelled(input.scope, input.permissions, c);
    NormBlank(input.consentHash.s);
    SpelledReads(input, c);
  }

  lemma SpelledReads(input: ConsentInput, c: Consent)
    requires Spells(input, c) && ParsableScope(input.scope) && ParsablePermissions(input.permissions)
    requires c.scope == Sort(ReadScope(input.scope.items), ScopeLeq)
    requires c.permissions == Sort(ReadPermissions(input.permissions.items), StrLeq)
    ensures Normalisable(input) && ReadConsent(input) == c
  {
    assert "grant"[0] != "revoke"[0];
    var read := ReadConsent(input);
    assert read.action == c.action;
    assert read.scope == c.scope && read.permissions == c.permissions;
    assert read.marketMakerId == c.marketMakerId && read.revokeTarget == c.revokeTarget;
    assert read.expiresAt == c.expiresAt && read.priorConsent == c.priorConsent;
  }

  // ---------- validation ----------

  const MAX_SCOPE_ENTRIES := 10000
  const MAX_PERMISSIONS := 100

  datatype Fault =
    | Unparsable
    | BadVersion
    | BadSubject
    | BadGrantee
    | BadIssuedAt
    | BadConsentHash
    | TooManyScopes
    | BadScopeKind(index: nat)
    | BadScopeRef(index: nat)
    | DuplicateScope(index: nat)
    | TooManyPermissions
    | BadPermission(index: nat)
    | DuplicatePermission(index: nat)
    | BadExpiresAt
    | ExpiryNotAfterIssue
    | BadPriorConsent
    | UnexpectedRevokeTarget
    | BadRevokeTarget
    | RevokeWithExpiry

  /** The parser applied to a typed consent. */
  predicate Reparsable(c: Consent, parseDate: DateParse) {
    && Trim(c.subject) != "" && Trim(c.grantee) != "" && Trim(c.consentHash) != ""
    && c.scope != [] && (forall e | e in c.scope :: Trim(e.ref) != "")
    && c.permissions != [] && (forall p | p in c.permissions :: Trim(p) != "")
    && parseDate(c.issuedAt).Some?
  }

  /** What the parser asks of a typed consent: nothing blank, lists with elements, an issue date that can be read. */
  ghost predicate Legible(c: Consent, parseDate: DateParse) {
    && !Blank(c.subject) && !Blank(c.grantee) && !Blank(c.consentHash) && parseDate(c.issuedAt).Some?
    && |c.scope| > 0 && (forall i | 0 <= i < |c.scope| :: !Blank(c.scope[i].ref))
    && |c.permissions| > 0 && (forall i | 0 <= i < |c.permissions| :: !Blank(c.permissions[i]))
  }

  ghost predicate Blank(s: string) {
    Trim(s) == ""
  }

  lemma LegibleIsReparsable(c: Consent, parseDate: DateParse)
    ensures Legible(c, parseDate) <==> Reparsable(c, parseDate)
  {
    assert forall i | 0 <= i < |c.scope| :: c.scope[i] in c.scope;
    assert forall i | 0 <= i < |c.permissions| :: c.permissions[i] in c.permissions;
  }

  ghost predicate HasFault(f: Fault, c: Consent) {
    match f
    case Unparsable => false
    case BadVersion => !VersionText(c.version)
    case BadSubject => !Did(c.subject)
    case BadGrantee => !Did(c.grantee)
    case BadIssuedAt => !IsoSecond(c.issuedAt)
    case BadConsentHash => !Hex64(c.consentHash)
    case TooManyScopes => |c.scope| > MAX_SCOPE_ENTRIES
    case BadScopeKind(i) => i < |c.scope| && !ValidKind(c.scope[i].kind)
    case BadScopeRef(i) => i < |c.scope| && !Hex64(c.scope[i].ref)
    case DuplicateScope(i) => i < |c.scope| && exists j | 0 <= j < i :: Key(c.scope[j]) == Key(c.scope[i])
    case TooManyPermissions => |c.permissions| > MAX_PERMISSIONS
    case BadPermission(i) => i < |c.permissions| && !PermissionText(c.permissions[i])
    case DuplicatePermission(i) => i < |c.permissions| && exists j | 0 <= j < i :: c.permissions[j] == c.permissions[i]
    case BadExpiresAt => c.expiresAt.Some? && !IsoSecond(c.expiresAt.value)
    case ExpiryNotAfterIssue =>
      c.expiresAt.Some? && IsoSecond(c.expiresAt.value) && StrLeq(c.expiresAt.value, c.issuedAt)
    case BadPriorConsent => c.priorConsent.Some? && !Hex64(c.priorConsent.value)
    case UnexpectedRevokeTarget => c.action.Grant? && c.revokeTarget.Some?
    case BadRevokeTarget => c.action.Revoke? && (c.revokeTarget.None? || !Hex64(c.revokeTarget.value))
    case RevokeWithExpiry => c.action.Revoke? && c.expiresAt.Some?
  }

  /** The patterns of single fields, the size limits, and the fields each action may carry. */
  ghost predicate PlainFields(c: Consent) {
    && VersionText(c.version) && Did(c.subject) && Did(c.grantee) && IsoSecond(c.issuedAt) && Hex64(c.consentHash)
    && |c.scope| <= MAX_SCOPE_ENTRIES && |c.permissions| <= MAX_PERMISSIONS
    && (c.expiresAt.Some? ==> IsoSecond(c.expiresAt.value) && StrLt(c.issuedAt, c.expiresAt.value))
    && (c.priorConsent.Some? ==> Hex64(c.priorConsent.value))
    && match c.action
       case Grant => c.revokeTarget.None?
       case Revoke => c.revokeTarget.Some? && Hex64(c.revokeTarget.value) && c.expiresAt.None?
  }

  /** A well-formed consent: every pattern holds, nothing is repeated, and the action's fields fit it. */
  ghost predicate ValidConsent(c: Consent, parseDate: DateParse) {
    && Reparsable(c, parseDate)
    && PlainFields(c)
    && (forall e | e in c.scope :: ValidKind(e.kind) && Hex64(e.ref)) && Distinct(c.scope)
    && (forall p | p in c.permissions :: PermissionText(p)) && Distinct(c.permissions)
  }

  ghost predicate ScopeFault(f: Fault) {
    f.BadScopeKind? || f.BadScopeRef? || f.DuplicateScope?
  }

  ghost predicate PermissionFault(f: Fault) {
    f.BadPermission? || f.DuplicatePermission?
  }

  lemma FaultlessScope(c: Consent)
    ensures (forall f | ScopeFault(f) :: !HasFault(f, c)) <==>
      (forall e | e in c.scope :: ValidKind(e.kind) && Hex64(e.ref)) && Distinct(c.scope)
  {
    if forall f | ScopeFault(f) :: !HasFault(f, c) {
      forall i | 0 <= i < |c.scope| ensures ValidKind(c.scope[i].kind) && Hex64(c.scope[i].ref) {
        assert !HasFault(BadScopeKind(i), c) && !HasFault(BadScopeRef(i), c);
      }
      forall i, j | 0 <= j < i < |c.scope| ensures c.scope[j] != c.scope[i] {
        assert !HasFault(DuplicateScope(i), c);
      }
    }
    if (forall e | e in c.scope :: ValidKind(e.kind) && Hex64(e.ref)) && Distinct(c.scope) {
      forall i, j | 0 <= j < i < |c.scope| ensures Key(c.scope[j]) != Key(c.scope[i]) {
        assert c.scope[j] in c.scope;
        ValidKindPlain(c.scope[j].kind);
        HexPlain(c.scope[j].ref);
        if Key(c.scope[j]) == Key(c.scope[i]) {
          KeyInjective(c.scope[j], c.scope[i]);
        }
      }
    }
  }

  lemma FaultlessPermissions(c: Consent)
    ensures (forall f | PermissionFault(f) :: !HasFault(f, c)) <==>
      (forall p | p in c.permissions :: PermissionText(p)) && Distinct(c.permissions)
  {
    if forall f | PermissionFault(f) :: !HasFault(f, c) {
      forall i | 0 <= i < |c.permissions| ensures PermissionText(c.permissions[i]) {
        assert !HasFault(BadPermission(i), c);
      }
      forall i, j | 0 <= j < i < |c.permissions| ensures c.permissions[j] != c.permissions[i] {
        assert !HasFault(DuplicatePermission(i), c);
      }
    }
  }

  lemma PlainFieldsFaultless(c: Consent, f: Fault)
    requires PlainFields(c) && !ScopeFault(f) && !PermissionFault(f)
    ensures !HasFault(f, c)
  {
  }

  lemma PlainFaultOf(c: Consent) returns (f: Fault)
    requires !PlainFields(c)
    ensures HasFault(f, c) && !ScopeFault(f) && !PermissionFault(f)
  {
    f := if !VersionText(c.version) then BadVersion
      else if !Did(c.subject) then BadSubject
      else if !Did(c.grantee) then BadGrantee
      else if !IsoSecond(c.issuedAt) then BadIssuedAt
      else if !Hex64(c.consentHash) then BadConsentHash
      else if |c.scope| > MAX_SCOPE_ENTRIES then TooManyScopes
      else if |c.permissions| > MAX_PERMISSIONS then TooManyPermissions
      else if c.expiresAt.Some? && !IsoSecond(c.expiresAt.value) then BadExpiresAt
      else if c.expiresAt.Some? && StrLeq(c.expiresAt.value, c.issuedAt) then ExpiryNotAfterIssue
      else if c.priorConsent.Some? && !Hex64(c.priorConsent.value) then BadPriorConsent
      else if c.action.Grant? then UnexpectedRevokeTarget
      else if c.expiresAt.Some? then RevokeWithExpiry
      else BadRevokeTarget;
  }

  lemma FaultlessIsValid(c: Consent, parseDate: DateParse)
    requires Reparsable(c, parseDate)
    ensures ValidConsent(c, parseDate) <==> forall f :: !HasFault(f, c)
  {
    FaultlessScope(c);
    FaultlessPermissions(c);
    if PlainFields(c) {
      forall f | !ScopeFault(f) && !PermissionFault(f) ensures !HasFault(f, c) {
        PlainFieldsFaultless(c, f);
      }
    } else {
      var f := PlainFaultOf(c);
    }
  }

  ghost predicate ScopeFaultsUpTo(faults: seq<Fault>, c: Consent, n: nat) {
    forall f :: f in faults <==>
      HasFault(f, c) && ScopeFault(f) && f.index < n
  }

  method CheckScope(c: Consent) returns (faults: seq<Fault>)
    ensures ScopeFaultsUpTo(faults, c, |c.scope|)
  {
    faults := [];
    var seen: set<string> := {};
    for i := 0 to |c.scope|
      invariant seen == set j | 0 <= j < i :: Key(c.scope[j])
      invariant ScopeFaultsUpTo(faults, c, i)
    {
      var entry := c.scope[i];
      if !ValidKind(entry.kind) { faults := faults + [BadScopeKind(i)]; }
      if !Hex64(entry.ref) { faults := faults + [BadScopeRef(i)]; }
      if Key(entry) in seen { faults := faults + [DuplicateScope(i)]; }
      seen := seen + {Key(entry)};
    }
  }

  ghost predicate PermissionFaultsUpTo(faults: seq<Fault>, c: Consent, n: nat) {
    forall f :: f in faults <==>
      HasFault(f, c) && PermissionFault(f) && f.index < n
  }

  method CheckPermissions(c: Consent) returns (faults: seq<Fault>)
    ensures PermissionFaultsUpTo(faults, c, |c.permissions|)
  {
    faults := [];
    var seen: set<string> := {};
    for i := 0 to |c.permissions|
      invariant seen == set j | 0 <= j < i :: c.permissions[j]
      invariant PermissionFaultsUpTo(faults, c, i)
    {
      var permission := c.permissions[i];
      if !PermissionText(permission) { faults := faults + [BadPermission(i)]; }
      if permission in seen { faults := faults + [DuplicatePermission(i)]; }
      seen := seen + {permission};
    }
  }

  method CheckHead(c: Consent) returns (faults: seq<Fault>)
    ensures forall f :: f in faults <==>
      HasFault(f, c) && f in {BadVersion, BadSubject, BadGrantee, BadIssuedAt, BadConsentHash}
  {
    faults := [];
    if !VersionText(c.version) { faults := faults + [BadVersion]; }
    if !Did(c.subject) { faults := faults + [BadSubject]; }
    if !Did(c.grantee) { faults := faults + [BadGrantee]; }
    if !IsoSecond(c.issuedAt) { faults := faults + [BadIssuedAt]; }
    if !Hex64(c.consentHash) { faults := faults + [BadConsentHash]; }
  }

  method CheckTail(c: Consent) returns (faults: seq<Fault>)
    ensures forall f :: f in faults <==>
      HasFault(f, c) && f in {BadExpiresAt, ExpiryNotAfterIssue, BadPriorConsent,
        UnexpectedRevokeTarget, BadRevokeTarget, RevokeWithExpiry}
  {
    faults := [];
    if c.expiresAt.Some? {
      if !IsoSecond(c.expiresAt.value) {
        faults := faults + [BadExpiresAt];
      } else if StrLeq(c.expiresAt.value, c.issuedAt) {
        faults := faults + [ExpiryNotAfterIssue];
      }
    }
    if c.priorConsent.Some? && !Hex64(c.priorConsent.value) { faults := faults + [BadPriorConsent]; }
    if c.action.Grant? {
      if c.revokeTarget.Some? { faults := faults + [UnexpectedRevokeTarget]; }
    } else {
      if c.revokeTarget.None? || !Hex64(c.revokeTarget.value) { faults := faults + [BadRevokeTarget]; }
      if c.expiresAt.Some? { faults := faults + [RevokeWithExpiry]; }
    }
  }

  /** Lists exactly the faults a consent has; none exactly when it is well formed. */
  method ValidateConsent(c: Consent, parseDate: DateParse) returns (valid: bool, faults: seq<Fault>)
    ensures valid <==> ValidConsent(c, parseDate)
    ensures valid <==> faults == []
    ensures Legible(c, parseDate) ==> forall f :: f in faults <==> HasFault(f, c)
    ensures !Legible(c, parseDate) ==> faults == [Unparsable]
  {
    LegibleIsReparsable(c, parseDate);
    if !Reparsable(c, parseDate) {
      return false, [Unparsable];
    }
    var head := CheckHead(c);
    if |c.scope| > MAX_SCOPE_ENTRIES { head := head + [TooManyScopes]; }
    var scopes := CheckScope(c);
    var middle: seq<Fault> := if |c.permissions| > MAX_PERMISSIONS then [TooManyPermissions] else [];
    var permissions := CheckPermissions(c);
    var tail := CheckTail(c);
    faults := head + scopes + middle + permissions + tail;
    valid := |faults| == 0;
    FaultlessIsValid(c, parseDate);
    assert forall f :: f in faults <==> HasFault(f, c);
    assert valid ==> forall f :: f !in faults;
    assert !valid ==> faults[0] in faults;
  }

  // ---------- state ----------

  datatype State = Active | Expired | RevokedState | RevocationUnknown | Inactive | Invalid

  ghost function EvaluateConsentState(c: Consent, nowMillis: int, port: Port, parseDate: DateParse): State {
    if !ValidConsent(c, parseDate) || c.action.Revoke? then Invalid
    else
      match Resolve(port(Subject(c.consentHash, ConsentGrant)))
      case IsRevoked => RevokedState
      case IsUnknown => RevocationUnknown
      case IsClear =>
        var issued := parseDate(c.issuedAt);
        if issued.None? then Invalid
        else if nowMillis < issued.value then Inactive
        else if c.expiresAt.None? then Active
        else
          var expires := parseDate(c.expiresAt.value);
          if expires.None? then Invalid
          else if nowMillis >= expires.value then Expired
          else Active
  }

  /** The state of a well-formed grant, as the port answers and the times read. */
  lemma StateTells(c: Consent, nowMillis: int, port: Port, parseDate: DateParse)
    requires ValidConsent(c, parseDate) && c.action.Grant?
    ensures var answer, issued := port(Subject(c.consentHash, ConsentGrant)), parseDate(c.issuedAt);
      var state := EvaluateConsentState(c, nowMillis, port, parseDate);
      && issued.Some?
      && (state == RevokedState <==> answer == Revoked)
      && (state == RevocationUnknown <==> answer != Revoked && answer != VerifiedNotRevoked)
      && (state == Inactive <==> answer == VerifiedNotRevoked && nowMillis < issued.value)
      && (state == Active <==>
            && answer == VerifiedNotRevoked && issued.value <= nowMillis
            && (c.expiresAt.Some? ==>
                  && parseDate(c.expiresAt.value).Some?
                  && nowMillis < parseDate(c.expiresAt.value).value))
      && (state == Expired <==>
            && answer == VerifiedNotRevoked && issued.value <= nowMillis
            && c.expiresAt.Some? && parseDate(c.expiresAt.value).Some?
            && parseDate(c.expiresAt.value).value <= nowMillis)
  {
  }

  /** What has no other state: all but well-formed grants, and one that the port clears, has been issued, and ends at a
      time that cannot be read. */
  lemma InvalidIff(c: Consent, nowMillis: int, port: Port, parseDate: DateParse)
    ensures EvaluateConsentState(c, nowMillis, port, parseDate) == Invalid <==>
      || !ValidConsent(c, parseDate) || c.action.Revoke?
      || (&& port(Subject(c.consentHash, ConsentGrant)) == VerifiedNotRevoked
          && parseDate(c.issuedAt).value <= nowMillis
          && c.expiresAt.Some? && parseDate(c.expiresAt.value) == None)
  {
  }

  lemma ActiveMeans(c: Consent, nowMillis: int, port: Port, parseDate: DateParse)
    requires EvaluateConsentState(c, nowMillis, port, parseDate) == Active
    ensures ValidConsent(c, parseDate) && c.action.Grant?
    ensures port(Subject(c.consentHash, ConsentGrant)) == VerifiedNotRevoked
  {
  }

  /** The scope list read from an incoming one: in order, with normal, non-blank references. */
  lemma ReadScopeShape(v: Value)
    requires ParsableScope(v)
    ensures var scope := Sort(ReadScope(v.items), ScopeLeq);
      && Sorted(scope, ScopeLeq) && scope != []
      && forall e | e in scope :: Norm(e.ref) == e.ref && Trim(e.ref) != ""
  {
    var scope := ReadScope(v.items);
    ScopeOrder();
    SortCorrect(scope, ScopeLeq);
    SortMembers(scope, ScopeLeq);
    forall e | e in scope ensures Norm(e.ref) == e.ref && Trim(e.ref) != "" {
      var i :| 0 <= i < |scope| && scope[i] == e;
      assert v.items[i] in v.items;
      NormIdempotent(v.items[i].ref.s);
    }
  }

  lemma ReadPermissionsShape(v: Value)
    requires ParsablePermissions(v)
    ensures var permissions := Sort(ReadPermissions(v.items), StrLeq);
      && Sorted(permissions, StrLeq) && permissions != []
      && forall p | p in permissions :: Norm(p) == p && Trim(p) != ""
  {
    var permissions := ReadPermissions(v.items);
    StringOrder();
    SortCorrect(permissions, StrLeq);
    SortMembers(permissions, StrLeq);
    forall p | p in permissions ensures Norm(p) == p && Trim(p) != "" {
      var i :| 0 <= i < |permissions| && permissions[i] == p;
      assert v.items[i] in v.items;
      NormIdempotent(v.items[i].s);
    }
  }

  /** A typed consent as an incoming record. */
  function Embed(c: Consent): ConsentInput {
    ConsentRecord(
      Str(c.version), Str(c.subject), Str(c.grantee), Str(if c.action.Grant? then "grant" else "revoke"),
      EmbedScope(c.scope), EmbedStrings(c.permissions), StrOpt(c.marketMakerId),
      if c.revokeTarget.Some? then Hashed(Str(c.revokeTarget.value)) else Undefined,
      Str(c.issuedAt), if c.expiresAt.Some? then Str(c.expiresAt.value) else Null,
      if c.priorConsent.Some? then Str(c.priorConsent.value) else Null, Str(c.consentHash))
  }

  /** A list in normal form survives embedding and reading back. */
  lemma ScopeRoundTrip(scope: seq<Scope>)
    requires Sorted(scope, ScopeLeq) && scope != []
    requires forall e | e in scope :: Norm(e.ref) == e.ref && Trim(e.ref) != ""
    ensures ParsableScope(EmbedScope(scope))
    ensures Sort(ReadScope(EmbedScope(scope).items), ScopeLeq) == scope
  {
    assert forall i | 0 <= i < |scope| :: scope[i] in scope;
    assert ReadScope(EmbedScope(scope).items) == scope;
    SortFixed(scope, ScopeLeq);
  }

  lemma PermissionsRoundTrip(permissions: seq<string>)
    requires Sorted(permissions, StrLeq) && permissions != []
    requires forall p | p in permissions :: Norm(p) == p && Trim(p) != ""
    ensures ParsablePermissions(EmbedStrings(permissions))
    ensures Sort(ReadPermissions(EmbedStrings(permissions).items), StrLeq) == permissions
  {
    assert forall i | 0 <= i < |permissions| :: permissions[i] in permissions;
    assert ReadPermissions(EmbedStrings(permissions).items) == permissions;
    SortFixed(permissions, StrLeq);
  }

  /** Normalisation is idempotent, exactly when the trimmed issue date still parses. */
  lemma NormalizeIdempotent(input: ConsentInput, parseDate: DateParse)
    requires NormalizeConsent(input, parseDate).Ok?
    ensures var c := NormalizeConsent(input, parseDate).value;
      NormalizeConsent(Embed(c), parseDate) == Ok(c) <==> parseDate(c.issuedAt).Some?
  {
    var c := NormalizeConsent(input, parseDate).value;
    ReadScopeShape(input.scope);
    ReadPermissionsShape(input.permissions);
    NormalizedStrings(input, parseDate);
    EmbeddedReads(c, parseDate);
  }

  /** A consent in normal form reads back as itself, as far as its date can be read. */
  lemma EmbeddedReads(c: Consent, parseDate: DateParse)
    requires Sorted(c.scope, ScopeLeq) && c.scope != [] && Sorted(c.permissions, StrLeq) && c.permissions != []
    requires forall e | e in c.scope :: Norm(e.ref) == e.ref && Trim(e.ref) != ""
    requires forall p | p in c.permissions :: Norm(p) == p && Trim(p) != ""
    requires NormalStrings(c)
    ensures NormalizeConsent(Embed(c), parseDate) == Ok(c) <==> parseDate(c.issuedAt).Some?
  {
    var again := Embed(c);
    ScopeRoundTrip(c.scope);
    PermissionsRoundTrip(c.permissions);
    assert "grant"[0] != "revoke"[0];
    assert Normalisable(again);
    var read := ReadConsent(again);
    assert read.scope == c.scope && read.permissions == c.permissions && read.action == c.action;
    assert read.marketMakerId == c.marketMakerId && read.revokeTarget == c.revokeTarget;
    assert read.expiresAt == c.expiresAt && read.priorConsent == c.priorConsent;
    assert Parsable(again, parseDate) <==> parseDate(c.issuedAt).Some?;
  }

  ghost predicate NormalStrings(c: Consent) {
    && Trim(c.version) == c.version && Trim(c.subject) == c.subject && Trim(c.grantee) == c.grantee
    && Trim(c.issuedAt) == c.issuedAt && Norm(c.consentHash) == c.consentHash
    && Trim(c.subject) != "" && Trim(c.grantee) != "" && Trim(c.consentHash) != ""
    && (c.expiresAt.Some? ==> Trim(c.expiresAt.value) == c.expiresAt.value)
    && (c.priorConsent.Some? ==> Norm(c.priorConsent.value) == c.priorConsent.value)
    && (c.marketMakerId.Some? ==> Trim(c.marketMakerId.value) == c.marketMakerId.value)
    && (c.revokeTarget.Some? ==> Norm(c.revokeTarget.value) == c.revokeTarget.value)
  }

  /** Every single text field is in its normal form. */
  lemma NormalizedStrings(input: ConsentInput, parseDate: DateParse)
    requires NormalizeConsent(input, parseDate).Ok?
    ensures NormalStrings(NormalizeConsent(input, parseDate).value)
  {
    TrimIdempotent(input.version.s);
    TrimIdempotent(input.subject.s);
    TrimIdempotent(input.grantee.s);
    TrimIdempotent(input.issuedAt.s);
    NormIdempotent(input.consentHash.s);
    if input.expiresAt.Str? { TrimIdempotent(input.expiresAt.s); }
    if input.priorConsent.Str? { NormIdempotent(input.priorConsent.s); }
    if input.marketMakerId.Str? { TrimIdempotent(input.marketMakerId.s); }
    if input.revokeTarget.Hashed? { NormIdempotent(input.revokeTarget.capabilityHash.s); }
  }
}
