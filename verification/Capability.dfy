/** Protocol capabilities: minting from a consent, verification of incoming records,
    the state at an instant, and the access decision made from them. Metadata is `Undefined` where there is none. */
module Capability {
  import opened Options
  import opened Text
  import opened Sorting
  import opened Values
  import C = Consent

  datatype Capability = Capability(
    capabilityHash: string, parentConsentHash: string, subject: string, grantee: string,
    scope: seq<Scope>, permissions: seq<string>, issuedAt: string, expiresAt: string,
    notBefore: Option<string>, marketMakerId: Option<string>, metadata: Value)

  datatype CapabilityInput =
    | NotAnObject
    | CapabilityRecord(
        capabilityHash: Value, parentConsentHash: Value, subject: Value, grantee: Value, scope: Value,
        permissions: Value, issuedAt: Value, expiresAt: Value, notBefore: Value, marketMakerId: Value, metadata: Value)

  // ---------- the hash, over the canonical payload only ----------

  datatype Payload = Payload(
    parentConsentHash: string, subject: string, grantee: string, scope: seq<Scope>, permissions: seq<string>,
    issuedAt: string, expiresAt: string, notBefore: Option<string>, marketMakerId: Option<string>)

  /** Some hash of the canonical text of a payload. */
  type HashFn = Digest<Payload>

  function CanonicalPayload(c: Capability): Payload {
    Payload(c.parentConsentHash, c.subject, c.grantee, Sort(c.scope, ScopeLeq), Sort(c.permissions, StrLeq),
            c.issuedAt, c.expiresAt, c.notBefore, c.marketMakerId)
  }

  function DeterministicHash(c: Capability, hash: HashFn): string {
    hash(CanonicalPayload(c))
  }

  // ---------- parsing ----------

  datatype Fault =
    | NotObject
    | BadHash
    | BadParentHash
    | BadSubject
    | BadGrantee
    | BadScope
    | BadPermissions
    | BadIssuedAt
    | BadExpiresAt
    | BadNotBefore
    | BadMarketMaker
    | BadMetadata
    | ExpiresNotAfterIssue
    | NotBeforeTooEarly
    | NotBeforeTooLate
    | HashMismatch

  predicate ValidEntry(e: Scope) {
    ValidKind(e.kind) && Hex64(e.ref)
  }

  predicate ScopeParses(v: Value) {
    && v.Arr? && v.items != []
    && forall e | e in v.items :: e.Entry? && e.kind.Str? && e.ref.Str? && ValidEntry(Scope(e.kind.s, Norm(e.ref.s)))
  }

  predicate PermissionsParse(v: Value) {
    v.Arr? && v.items != [] && forall p | p in v.items :: p.Str? && PermissionText(Norm(p.s))
  }

  function HeaderFault(input: CapabilityInput): Option<Fault>
    requires input.CapabilityRecord?
  {
    if !input.capabilityHash.Str? then Some(BadHash)
    else if !input.parentConsentHash.Str? then Some(BadParentHash)
    else if !input.subject.Str? then Some(BadSubject)
    else if !input.grantee.Str? then Some(BadGrantee)
    else if !(input.issuedAt.Str? && IsoSecond(input.issuedAt.s)) then Some(BadIssuedAt)
    else if !(input.expiresAt.Str? && IsoSecond(input.expiresAt.s)) then Some(BadExpiresAt)
    else if !Hex64(Norm(input.capabilityHash.s)) then Some(BadHash)
    else if !Hex64(Norm(input.parentConsentHash.s)) then Some(BadParentHash)
    else if !Did(Trim(input.subject.s)) then Some(BadSubject)
    else if !Did(Trim(input.grantee.s)) then Some(BadGrantee)
    else None
  }

  predicate ObjectOrNone(metadata: Value) {
    metadata.Undefined? || IsObject(metadata)
  }

  function OptionalFault(input: CapabilityInput): Option<Fault>
    requires input.CapabilityRecord?
  {
    if !(input.notBefore.Undefined? || (input.notBefore.Str? && IsoSecond(input.notBefore.s))) then Some(BadNotBefore)
    else if !(input.marketMakerId.Undefined? || NonBlank(input.marketMakerId)) then Some(BadMarketMaker)
    else if !ObjectOrNone(input.metadata) then Some(BadMetadata)
    else None
  }

  function ParseCapability(input: CapabilityInput): Result<Capability, Fault> {
    if input.NotAnObject? then Err(NotObject)
    else if HeaderFault(input).Some? then Err(HeaderFault(input).value)
    else if !ScopeParses(input.scope) then Err(BadScope)
    else if !PermissionsParse(input.permissions) then Err(BadPermissions)
    else if OptionalFault(input).Some? then Err(OptionalFault(input).value)
    else Ok(ReadCapability(input))
  }

  function ReadCapability(input: CapabilityInput): Capability
    requires input.CapabilityRecord? && HeaderFault(input).None? && OptionalFault(input).None?
    requires ScopeParses(input.scope) && PermissionsParse(input.permissions)
  {
    Capability(
      Norm(input.capabilityHash.s), Norm(input.parentConsentHash.s), Trim(input.subject.s), Trim(input.grantee.s),
      Sort(C.ReadScope(input.scope.items), ScopeLeq),
      SortedSet(C.ReadPermissions(input.permissions.items), StrLeq),
      input.issuedAt.s, input.expiresAt.s,
      if input.notBefore.Str? then Some(input.notBefore.s) else None,
      if input.marketMakerId.Str? then Some(Trim(input.marketMakerId.s)) else None,
      input.metadata)
  }

  // ---------- verification ----------

  datatype Verification = Rejected(faults: seq<Fault>) | Accepted(capability: Capability)

  function TemporalFaults(c: Capability): seq<Fault> {
    (if StrLeq(c.expiresAt, c.issuedAt) then [ExpiresNotAfterIssue] else [])
    + (if c.notBefore.Some? && StrLt(c.notBefore.value, c.issuedAt) then [NotBeforeTooEarly] else [])
    + (if c.notBefore.Some? && StrLeq(c.expiresAt, c.notBefore.value) then [NotBeforeTooLate] else [])
  }

  function VerifyCapability(input: CapabilityInput, hash: HashFn): Verification {
    match ParseCapability(input)
    case Err(fault) => Rejected([fault])
    case Ok(c) =>
      var faults := TemporalFaults(c) + if DeterministicHash(c, hash) != c.capabilityHash then [HashMismatch] else [];
      if faults == [] then Accepted(c) else Rejected(faults)
  }

  // ---------- canonical capabilities ----------

  ghost predicate CanonicalHeader(c: Capability) {
    && Hex64(c.capabilityHash) && Hex64(c.parentConsentHash) && Did(c.subject) && Did(c.grantee)
    && IsoSecond(c.issuedAt) && IsoSecond(c.expiresAt)
  }

  ghost predicate CanonicalOptions(c: Capability) {
    && (c.notBefore.Some? ==> IsoSecond(c.notBefore.value))
    && (c.marketMakerId.Some? ==> Trim(c.marketMakerId.value) == c.marketMakerId.value)
  }

  ghost predicate CanonicalScope(scope: seq<Scope>) {
    scope != [] && (forall e | e in scope :: ValidEntry(e)) && Sorted(scope, ScopeLeq)
  }

  ghost predicate CanonicalPermissions(permissions: seq<string>) {
    && permissions != [] && (forall p | p in permissions :: PermissionText(p))
    && Sorted(permissions, StrLeq) && Distinct(permissions)
  }

  /** Canonical in all that the hash covers, which leaves out the metadata. */
  ghost predicate CanonicalUnderHash(c: Capability, hash: HashFn) {
    && CanonicalHeader(c) && CanonicalOptions(c)
    && CanonicalScope(c.scope) && CanonicalPermissions(c.permissions)
    && StrLt(c.issuedAt, c.expiresAt)
    && (c.notBefore.Some? ==> StrLeq(c.issuedAt, c.notBefore.value) && StrLt(c.notBefore.value, c.expiresAt))
    && c.capabilityHash == hash(Payload(
         c.parentConsentHash, c.subject, c.grantee, c.scope, c.permissions, c.issuedAt, c.expiresAt, c.notBefore,
         c.marketMakerId))
  }

  /** What every accepted capability looks like, whatever the incoming record looked like. */
  ghost predicate Canonical(c: Capability, hash: HashFn) {
    CanonicalUnderHash(c, hash) && ObjectOrNone(c.metadata)
  }

  /** With its lists in order a capability's hash is the hash of all its fields but metadata. */
  lemma HashCovers(c: Capability, hash: HashFn)
    requires Sorted(c.scope, ScopeLeq) && Sorted(c.permissions, StrLeq)
    ensures DeterministicHash(c, hash) == hash(Payload(
      c.parentConsentHash, c.subject, c.grantee, c.scope, c.permissions, c.issuedAt, c.expiresAt, c.notBefore,
      c.marketMakerId))
  {
    SortFixed(c.scope, ScopeLeq);
    SortFixed(c.permissions, StrLeq);
  }

  predicate NamedMarketMaker(c: Capability) {
    c.marketMakerId.Some? ==> Trim(c.marketMakerId.value) != ""
  }

  /** A typed capability as an incoming record. */
  function Embed(c: Capability): CapabilityInput {
    CapabilityRecord(
      Str(c.capabilityHash), Str(c.parentConsentHash), Str(c.subject), Str(c.grantee), EmbedScope(c.scope),
      EmbedStrings(c.permissions), Str(c.issuedAt), Str(c.expiresAt), StrOpt(c.notBefore), StrOpt(c.marketMakerId),
      c.metadata)
  }

  /** Reading normalised entries back gives the entries' normal forms. */
  function NormalEntry(e: Scope): Scope {
    Scope(e.kind, Norm(e.ref))
  }

  function NormalScope(scope: seq<Scope>): seq<Scope> {
    seq(|scope|, i requires 0 <= i < |scope| => NormalEntry(scope[i]))
  }

  function NormalPermissions(permissions: seq<string>): seq<string> {
    seq(|permissions|, i requires 0 <= i < |permissions| => Norm(permissions[i]))
  }

  /** A canonical capability under any spelling: scope entries in any order with references in any case and
      padding, permissions in any order, any number of times, in any case and padding. */
  ghost predicate Respelling(c: Capability, d: Capability) {
    && d == c.(scope := d.scope, permissions := d.permissions)
    && multiset(NormalScope(d.scope)) == multiset(c.scope)
    && (forall p :: p in NormalPermissions(d.permissions) <==> p in c.permissions)
  }

  lemma ValidEntriesStay(scope: seq<Scope>)
    requires forall e | e in scope :: ValidEntry(e)
    ensures NormalScope(scope) == scope
  {
    forall i | 0 <= i < |scope| ensures NormalEntry(scope[i]) == scope[i] {
      assert scope[i] in scope;
      Hex64Normal(scope[i].ref);
    }
  }

  lemma ValidPermissionsStay(permissions: seq<string>)
    requires forall p | p in permissions :: PermissionText(p)
    ensures NormalPermissions(permissions) == permissions
  {
    forall i | 0 <= i < |permissions| ensures Norm(permissions[i]) == permissions[i] {
      assert permissions[i] in permissions;
      PermissionNormal(permissions[i]);
    }
  }

  lemma RespelledScopeParses(c: seq<Scope>, d: seq<Scope>)
    requires CanonicalScope(c)
    requires multiset(NormalScope(d)) == multiset(c)
    ensures ScopeParses(EmbedScope(d))
    ensures Sort(C.ReadScope(EmbedScope(d).items), ScopeLeq) == c
  {
    var v := EmbedScope(d);
    assert |multiset(NormalScope(d))| == |d| && |multiset(c)| == |c|;
    forall i | 0 <= i < |d| ensures ValidEntry(NormalEntry(d[i])) {
      assert NormalScope(d)[i] in multiset(NormalScope(d));
      assert NormalScope(d)[i] in multiset(c);
    }
    assert C.ReadScope(v.items) == NormalScope(d);
    ScopeOrder();
    SortCanonical(NormalScope(d), c, ScopeLeq);
    SortFixed(c, ScopeLeq);
  }

  lemma RespelledPermissionsParse(c: seq<string>, d: seq<string>)
    requires CanonicalPermissions(c)
    requires forall p :: p in NormalPermissions(d) <==> p in c
    ensures PermissionsParse(EmbedStrings(d))
    ensures SortedSet(C.ReadPermissions(EmbedStrings(d).items), StrLeq) == c
  {
    var v := EmbedStrings(d);
    assert c[0] in NormalPermissions(d);
    forall i | 0 <= i < |d| ensures PermissionText(Norm(d[i])) {
      assert NormalPermissions(d)[i] in NormalPermissions(d);
    }
    assert C.ReadPermissions(v.items) == NormalPermissions(d);
    StringOrder();
    SortedSetCanonical(NormalPermissions(d), c, StrLeq);
    DedupeFixed(c);
    SortFixed(c, StrLeq);
  }

  lemma CanonicalHeaderParses(c: Capability)
    requires CanonicalHeader(c)
    ensures HeaderFault(Embed(c)).None?
    ensures Norm(c.capabilityHash) == c.capabilityHash && Norm(c.parentConsentHash) == c.parentConsentHash
    ensures Trim(c.subject) == c.subject && Trim(c.grantee) == c.grantee
  {
    Hex64Normal(c.capabilityHash);
    Hex64Normal(c.parentConsentHash);
    DidTrimmed(c.subject);
    DidTrimmed(c.grantee);
  }

  /** What verification still turns down in an otherwise canonical capability. */
  function Leftover(c: Capability): Option<Fault> {
    if !NamedMarketMaker(c) then Some(BadMarketMaker)
    else if !ObjectOrNone(c.metadata) then Some(BadMetadata)
    else None
  }

  lemma CanonicalOptionsParse(c: Capability)
    requires CanonicalOptions(c)
    ensures OptionalFault(Embed(c)) == Leftover(c)
  {
  }

  /** What a record reads as, given how each part of it reads. */
  lemma PartsRead(c: Capability, d: Capability)
    requires d == c.(scope := d.scope, permissions := d.permissions) && CanonicalOptions(c)
    requires HeaderFault(Embed(d)).None? && OptionalFault(Embed(d)).None?
    requires Norm(c.capabilityHash) == c.capabilityHash && Norm(c.parentConsentHash) == c.parentConsentHash
    requires Trim(c.subject) == c.subject && Trim(c.grantee) == c.grantee
    requires ScopeParses(EmbedScope(d.scope)) && PermissionsParse(EmbedStrings(d.permissions))
    requires Sort(C.ReadScope(EmbedScope(d.scope).items), ScopeLeq) == c.scope
    requires SortedSet(C.ReadPermissions(EmbedStrings(d.permissions).items), StrLeq) == c.permissions
    ensures ReadCapability(Embed(d)) == c
  {
    var input, read := Embed(d), ReadCapability(Embed(d));
    assert read.scope == c.scope && read.permissions == c.permissions by {
      assert input.scope == EmbedScope(d.scope) && input.permissions == EmbedStrings(d.permissions);
    }
    assert read.capabilityHash == c.capabilityHash && read.parentConsentHash == c.parentConsentHash;
    assert read.subject == c.subject && read.grantee == c.grantee && read.marketMakerId == c.marketMakerId;
  }

  lemma CanonicalParses(c: Capability, d: Capability)
    requires CanonicalHeader(c) && CanonicalOptions(c) && CanonicalScope(c.scope) && CanonicalPermissions(c.permissions)
    requires Respelling(c, d)
    ensures ParseCapability(Embed(d)) == if Leftover(c).None? then Ok(c) else Err(Leftover(c).value)
  {
    CanonicalHeaderParses(d);
    CanonicalOptionsParse(d);
    RespelledScopeParses(c.scope, d.scope);
    RespelledPermissionsParse(c.permissions, d.permissions);
    if Leftover(c).None? {
      PartsRead(c, d);
    }
  }

  /** A capability canonical under its hash verifies, under every spelling, to itself, exactly when it has no blank
      market maker and no metadata but an object; otherwise the one or the other is its only fault. */
  lemma CanonicalVerifies(c: Capability, d: Capability, hash: HashFn)
    requires CanonicalUnderHash(c, hash) && Respelling(c, d)
    ensures VerifyCapability(Embed(d), hash)
         == if !NamedMarketMaker(c) then Rejected([BadMarketMaker])
            else if !ObjectOrNone(c.metadata) then Rejected([BadMetadata])
            else Accepted(c)
  {
    CanonicalParses(c, d);
    HashCovers(c, hash);
    CanonicalStands(c, hash);
  }

  lemma CanonicalStands(c: Capability, hash: HashFn)
    requires CanonicalUnderHash(c, hash)
    ensures TemporalFaults(c) == [] && DeterministicHash(c, hash) == c.capabilityHash
  {
    HashCovers(c, hash);
  }

  lemma CanonicalIsItsOwnSpelling(c: Capability, hash: HashFn)
    requires CanonicalUnderHash(c, hash)
    ensures Respelling(c, c)
  {
    ValidEntriesStay(c.scope);
    ValidPermissionsStay(c.permissions);
  }

  lemma ParsedScopeIsCanonical(v: Value)
    requires ScopeParses(v)
    ensures CanonicalScope(Sort(C.ReadScope(v.items), ScopeLeq))
  {
    var scope := C.ReadScope(v.items);
    ScopeOrder();
    SortCorrect(scope, ScopeLeq);
    SortMembers(scope, ScopeLeq);
    forall e | e in scope ensures ValidEntry(e) {
      var i :| 0 <= i < |scope| && scope[i] == e;
      assert v.items[i] in v.items;
    }
  }

  lemma ParsedPermissionsAreCanonical(v: Value)
    requires PermissionsParse(v)
    ensures CanonicalPermissions(SortedSet(C.ReadPermissions(v.items), StrLeq))
  {
    var permissions := C.ReadPermissions(v.items);
    StringOrder();
    SortedSetMembers(permissions, StrLeq);
    forall p | p in permissions ensures PermissionText(p) {
      var i :| 0 <= i < |permissions| && permissions[i] == p;
      assert v.items[i] in v.items;
    }
    assert permissions != [];
  }

  /** Whatever verification accepts is canonical, so that verifying it again returns it unchanged. */
  lemma VerifyIsFixpoint(input: CapabilityInput, hash: HashFn)
    requires VerifyCapability(input, hash).Accepted?
    ensures var c := VerifyCapability(input, hash).capability;
      && Canonical(c, hash) && NamedMarketMaker(c)
      && VerifyCapability(Embed(c), hash) == Accepted(c)
  {
    var c := VerifyCapability(input, hash).capability;
    ParsedScopeIsCanonical(input.scope);
    ParsedPermissionsAreCanonical(input.permissions);
    if input.marketMakerId.Str? {
      TrimIdempotent(input.marketMakerId.s);
    }
    HashCovers(c, hash);
    if c.notBefore.Some? {
      StrLeqTotal(c.issuedAt, c.notBefore.value);
    }
    CanonicalIsItsOwnSpelling(c, hash);
    CanonicalVerifies(c, c, hash);
  }

  lemma VerifiedStays(input: CapabilityInput, hash: HashFn)
    requires VerifyCapability(input, hash).Accepted?
    ensures var c := VerifyCapability(input, hash).capability; VerifyCapability(Embed(c), hash) == Accepted(c)
  {
    VerifyIsFixpoint(input, hash);
  }

  /** A record that reads as a capability, in whatever spelling. */
  ghost predicate Spells(input: CapabilityInput, c: Capability) {
    && input.CapabilityRecord?
    && input.capabilityHash.Str? && Norm(input.capabilityHash.s) == c.capabilityHash
    && input.parentConsentHash.Str? && Norm(input.parentConsentHash.s) == c.parentConsentHash
    && input.subject.Str? && Trim(input.subject.s) == c.subject
    && input.grantee.Str? && Trim(input.grantee.s) == c.grantee
    && input.issuedAt == Str(c.issuedAt) && input.expiresAt == Str(c.expiresAt)
    && SpellsLists(input.scope, input.permissions, c)
    && input.notBefore == (if c.notBefore.Some? then Str(c.notBefore.value) else Undefined)
    && (if c.marketMakerId.Some?
        then input.marketMakerId.Str? && Trim(input.marketMakerId.s) == c.marketMakerId.value
        else input.marketMakerId == Undefined)
    && input.metadata == c.metadata
  }

  /** The same entries as often, and the same permissions however often, in any order. */
  ghost predicate SpellsLists(scope: Value, permissions: Value, c: Capability) {
    && scope.Arr? && permissions.Arr?
    && (forall v | v in scope.items :: v.Entry? && v.kind.Str? && v.ref.Str?)
    && (forall v | v in permissions.items :: v.Str?)
    && multiset(C.ReadScope(scope.items)) == multiset(c.scope)
    && (forall p :: p in C.ReadPermissions(permissions.items) <==> p in c.permissions)
  }

  lemma SpelledLists(scope: Value, permissions: Value, c: Capability)
    requires SpellsLists(scope, permissions, c) && CanonicalScope(c.scope) && CanonicalPermissions(c.permissions)
    ensures ScopeParses(scope) && Sort(C.ReadScope(scope.items), ScopeLeq) == c.scope
    ensures PermissionsParse(permissions) && SortedSet(C.ReadPermissions(permissions.items), StrLeq) == c.permissions
  {
    var entries, read := C.ReadScope(scope.items), C.ReadPermissions(permissions.items);
    assert |multiset(entries)| == |entries| && |multiset(c.scope)| == |c.scope|;
    forall v | v in scope.items ensures ValidEntry(Scope(v.kind.s, Norm(v.ref.s))) {
      var i :| 0 <= i < |scope.items| && scope.items[i] == v;
      assert entries[i] in multiset(entries);
      assert entries[i] in multiset(c.scope);
    }
    forall v | v in permissions.items ensures PermissionText(Norm(v.s)) {
      var i :| 0 <= i < |permissions.items| && permissions.items[i] == v;
      assert read[i] in read;
    }
    assert c.permissions[0] in read;
    ScopeOrder();
    SortCanonical(entries, c.scope, ScopeLeq);
    SortFixed(c.scope, ScopeLeq);
    StringOrder();
    SortedSetCanonical(read, c.permissions, StrLeq);
    DedupeFixed(c.permissions);
    SortFixed(c.permissions, StrLeq);
  }

  lemma ParsedListsSpell(scope: Value, permissions: Value, c: Capability)
    requires ScopeParses(scope) && Sort(C.ReadScope(scope.items), ScopeLeq) == c.scope
    requires PermissionsParse(permissions) && SortedSet(C.ReadPermissions(permissions.items), StrLeq) == c.permissions
    ensures SpellsLists(scope, permissions, c)
  {
    ScopeOrder();
    SortCorrect(C.ReadScope(scope.items), ScopeLeq);
    StringOrder();
    SortedSetMembers(C.ReadPermissions(permissions.items), StrLeq);
  }

  lemma SpelledParses(input: CapabilityInput, c: Capability)
    requires CanonicalHeader(c) && CanonicalOptions(c) && CanonicalScope(c.scope) && CanonicalPermissions(c.permissions)
    requires Spells(input, c) && NamedMarketMaker(c) && ObjectOrNone(c.metadata)
    ensures ParseCapability(input) == Ok(c)
  {
    SpelledLists(input.scope, input.permissions, c);
    assert HeaderFault(input).None? && OptionalFault(input).None?;
    var read := ReadCapability(input);
    assert read.scope == c.scope && read.permissions == c.permissions;
    assert read.marketMakerId == c.marketMakerId && read.notBefore == c.notBefore;
  }

  /** What verification accepts, and as what: a record is accepted as a capability exactly when it spells it, and the
      capability is canonical, named and sealed by the hash of all its fields but metadata. */
  lemma AcceptedIff(input: CapabilityInput, c: Capability, hash: HashFn)
    ensures VerifyCapability(input, hash) == Accepted(c)
       <==> Canonical(c, hash) && NamedMarketMaker(c) && Spells(input, c)
  {
    if VerifyCapability(input, hash) == Accepted(c) {
      VerifyIsFixpoint(input, hash);
      ParsedSpells(input, c);
    }
    if Canonical(c, hash) && NamedMarketMaker(c) && Spells(input, c) {
      SpelledParses(input, c);
      CanonicalStands(c, hash);
    }
  }

  lemma ParsedSpells(input: CapabilityInput, c: Capability)
    requires ParseCapability(input) == Ok(c)
    ensures Spells(input, c)
  {
    var read := ReadCapability(input);
    assert read == c;
    ParsedListsSpell(input.scope, input.permissions, c);
  }

  /** What the hash seals: two accepted capabilities under one hash are the same but for their metadata, or their two
      payloads differ and collide under the hash. */
  lemma SealBinds(a: CapabilityInput, b: CapabilityInput, c: Capability, d: Capability, hash: HashFn)
    requires VerifyCapability(a, hash) == Accepted(c) && VerifyCapability(b, hash) == Accepted(d)
    requires c.capabilityHash == d.capabilityHash
    ensures
      var p := Payload(c.parentConsentHash, c.subject, c.grantee, c.scope, c.permissions, c.issuedAt, c.expiresAt,
                       c.notBefore, c.marketMakerId);
      var q := Payload(d.parentConsentHash, d.subject, d.grantee, d.scope, d.permissions, d.issuedAt, d.expiresAt,
                       d.notBefore, d.marketMakerId);
      d == c.(metadata := d.metadata) || (p != q && hash(p) == hash(q))
  {
    AcceptedIff(a, c, hash);
    AcceptedIff(b, d, hash);
  }

  // ---------- minting ----------

  datatype MintInput = MintInput(
    consent: C.ConsentInput, scope: seq<Scope>, permissions: seq<string>, issuedAt: string,
    expiresAt: Option<string>, notBefore: Option<string>, marketMakerId: Option<string>,
    metadata: Value, consentPort: Port)

  datatype MintError =
    | IssuedAtMalformed
    | IssuedAtUnparsable
    | ConsentUnreadable
    | ConsentInvalid
    | ConsentNotActive(state: C.State)
    | EmptyScope
    | EmptyPermissions
    | ScopeNotSubset
    | PermissionsNotSubset
    | MarketMakerMismatch
    | MarketMakerIntroduced
    | ExpiryMissing
    | ExpiryMalformed
    | ExpiryNotAfterIssue
    | ExpiryBeyondConsent
    | NotBeforeMalformed
    | NotBeforeBeforeIssue
    | NotBeforeAfterExpiry

  function MintScope(scope: seq<Scope>): seq<Scope> {
    Sort(NormalScope(scope), KeyLeq)
  }

  function MintPermissions(permissions: seq<string>): seq<string> {
    SortedSet(NormalPermissions(permissions), StrLeq)
  }

  ghost function AssertConsentReady(
    input: C.ConsentInput, nowMillis: int, port: Port, parseDate: DateParse): Result<C.Consent, MintError>
  {
    var normalized := C.NormalizeConsent(input, parseDate);
    if normalized.Err? then Err(ConsentUnreadable)
    else if !C.ValidConsent(normalized.value, parseDate) then Err(ConsentInvalid)
    else
      var state := C.EvaluateConsentState(normalized.value, nowMillis, port, parseDate);
      if state != C.Active then Err(ConsentNotActive(state)) else Ok(normalized.value)
  }

  /** The checks on times, in order; `None` when all pass. */
  function MintTimeError(m: MintInput, expiresAt: string, consentExpiry: Option<string>): Option<MintError> {
    if !IsoSecond(expiresAt) then Some(ExpiryMalformed)
    else if StrLeq(expiresAt, m.issuedAt) then Some(ExpiryNotAfterIssue)
    else if consentExpiry.Some? && StrLt(consentExpiry.value, expiresAt) then Some(ExpiryBeyondConsent)
    else if m.notBefore.None? then None
    else if !IsoSecond(m.notBefore.value) then Some(NotBeforeMalformed)
    else if StrLt(m.notBefore.value, m.issuedAt) then Some(NotBeforeBeforeIssue)
    else if StrLeq(expiresAt, m.notBefore.value) then Some(NotBeforeAfterExpiry)
    else None
  }

  function MintRequestError(m: MintInput, consent: C.Consent): Option<MintError> {
    if m.scope == [] then Some(EmptyScope)
    else if m.permissions == [] then Some(EmptyPermissions)
    else if exists e | e in MintScope(m.scope) :: Key(e) !in Keys(consent.scope) then Some(ScopeNotSubset)
    else if exists p | p in MintPermissions(m.permissions) :: p !in consent.permissions then Some(PermissionsNotSubset)
    else if m.marketMakerId.Some? && consent.marketMakerId.Some? && m.marketMakerId != consent.marketMakerId
      then Some(MarketMakerMismatch)
    else if m.marketMakerId.Some? && consent.marketMakerId.None? then Some(MarketMakerIntroduced)
    else None
  }

  function MintBase(m: MintInput, consent: C.Consent, expiresAt: string): Capability {
    Capability("", consent.consentHash, consent.subject, consent.grantee, MintScope(m.scope),
      MintPermissions(m.permissions), m.issuedAt, expiresAt, m.notBefore, consent.marketMakerId, m.metadata)
  }

  function Sealed(base: Capability, hash: HashFn): Capability {
    base.(capabilityHash := DeterministicHash(base, hash))
  }

  ghost function MintCapability(m: MintInput, hash: HashFn, parseDate: DateParse): Result<Capability, MintError> {
    if !IsoSecond(m.issuedAt) then Err(IssuedAtMalformed)
    else if parseDate(m.issuedAt).None? then Err(IssuedAtUnparsable)
    else
      var ready := AssertConsentReady(m.consent, parseDate(m.issuedAt).value, m.consentPort, parseDate);
      if ready.Err? then Err(ready.error)
      else
        var consent := ready.value;
        var requestError := MintRequestError(m, consent);
        var expiresAt := if m.expiresAt.Some? then m.expiresAt else consent.expiresAt;
        if requestError.Some? then Err(requestError.value)
        else if expiresAt.None? then Err(ExpiryMissing)
        else
          var timeError := MintTimeError(m, expiresAt.value, consent.expiresAt);
          if timeError.Some? then Err(timeError.value)
          else
            Ok(Sealed(MintBase(m, consent, expiresAt.value), hash))
  }

  /** The scope a mint keeps: well-formed entries of the consent, in scope order. */
  lemma MintScopeShape(scope: seq<Scope>, allowed: seq<Scope>)
    requires scope != [] && forall e | e in allowed :: ValidEntry(e)
    requires forall e | e in MintScope(scope) :: Key(e) in Keys(allowed)
    ensures MintScope(scope) != [] && Sorted(MintScope(scope), ScopeLeq)
    ensures forall e | e in MintScope(scope) :: e in allowed
    ensures multiset(NormalScope(scope)) == multiset(MintScope(scope))
  {
    var minted := MintScope(scope);
    KeyOrder();
    SortCorrect(NormalScope(scope), KeyLeq);
    forall e | e in minted ensures e in allowed {
      KeyMember(e, allowed);
    }
    forall i, j | 0 <= i < j < |minted| ensures ScopeLeq(minted[i], minted[j]) {
      assert minted[i] in minted && minted[j] in minted;
      KeyOrderIsScopeOrder(minted[i], minted[j]);
    }
  }

  lemma MintPermissionsShape(permissions: seq<string>, allowed: seq<string>)
    requires permissions != [] && forall p | p in allowed :: PermissionText(p)
    requires forall p | p in MintPermissions(permissions) :: p in allowed
    ensures CanonicalPermissions(MintPermissions(permissions))
    ensures forall p :: p in MintPermissions(permissions) <==> p in NormalPermissions(permissions)
  {
    StringOrder();
    SortedSetMembers(NormalPermissions(permissions), StrLeq);
    assert NormalPermissions(permissions) != [];
  }

  /** What a minted capability takes from its consent. */
  ghost predicate Attenuates(c: Capability, consent: C.Consent) {
    && (forall e | e in c.scope :: e in consent.scope)
    && (forall p | p in c.permissions :: p in consent.permissions)
    && c.subject == consent.subject && c.grantee == consent.grantee
    && c.parentConsentHash == consent.consentHash && c.marketMakerId == consent.marketMakerId
    && (consent.expiresAt.Some? ==> StrLeq(c.expiresAt, consent.expiresAt.value))
  }

  /** A capability holds just what was requested, in canonical form, and lives strictly between
      its issue and its expiry. */
  ghost predicate HoldsRequest(c: Capability, m: MintInput) {
    && CanonicalScope(c.scope) && CanonicalPermissions(c.permissions)
    && multiset(c.scope) == multiset(NormalScope(m.scope))
    && (forall p :: p in c.permissions <==> p in NormalPermissions(m.permissions))
    && StrLt(c.issuedAt, c.expiresAt)
    && (c.notBefore.Some? ==> StrLeq(c.issuedAt, c.notBefore.value) && StrLt(c.notBefore.value, c.expiresAt))
    && c.issuedAt == m.issuedAt && c.notBefore == m.notBefore && c.metadata == m.metadata
    && (m.expiresAt.Some? ==> c.expiresAt == m.expiresAt.value)
  }

  lemma BaseAttenuates(m: MintInput, consent: C.Consent, expiresAt: string, hash: HashFn)
    requires forall e | e in consent.scope :: ValidEntry(e)
    requires forall p | p in consent.permissions :: PermissionText(p)
    requires MintRequestError(m, consent).None? && MintTimeError(m, expiresAt, consent.expiresAt).None?
    requires m.expiresAt.Some? ==> expiresAt == m.expiresAt.value
    ensures var c := Sealed(MintBase(m, consent, expiresAt), hash);
      Attenuates(c, consent) && HoldsRequest(c, m)
    ensures IsoSecond(expiresAt) && (m.notBefore.Some? ==> IsoSecond(m.notBefore.value))
  {
    MintScopeShape(m.scope, consent.scope);
    MintPermissionsShape(m.permissions, consent.permissions);
    if m.notBefore.Some? {
      StrLeqTotal(m.issuedAt, m.notBefore.value);
    }
    if consent.expiresAt.Some? {
      StrLeqTotal(expiresAt, consent.expiresAt.value);
    }
  }

  lemma ReadyConsent(input: C.ConsentInput, nowMillis: int, port: Port, parseDate: DateParse)
    requires AssertConsentReady(input, nowMillis, port, parseDate).Ok?
    ensures var consent := AssertConsentReady(input, nowMillis, port, parseDate).value;
      && C.NormalizeConsent(input, parseDate) == Ok(consent)
      && C.ValidConsent(consent, parseDate) && consent.action.Grant?
      && port(Subject(consent.consentHash, ConsentGrant)) == VerifiedNotRevoked
  {
    var normalized := C.NormalizeConsent(input, parseDate);
    C.ActiveMeans(normalized.value, nowMillis, port, parseDate);
  }

  /** The consent a capability is minted from is active at the time of the mint. */
  lemma MintedWhileActive(m: MintInput, hash: HashFn, parseDate: DateParse)
    requires MintCapability(m, hash, parseDate).Ok?
    ensures C.NormalizeConsent(m.consent, parseDate).Ok? && parseDate(m.issuedAt).Some?
    ensures var consent := C.NormalizeConsent(m.consent, parseDate).value;
      C.EvaluateConsentState(consent, parseDate(m.issuedAt).value, m.consentPort, parseDate) == C.Active
  {
    ReadyConsent(m.consent, parseDate(m.issuedAt).value, m.consentPort, parseDate);
    ReadyIsActive(m.consent, parseDate(m.issuedAt).value, m.consentPort, parseDate);
  }

  lemma ReadyIsActive(input: C.ConsentInput, nowMillis: int, port: Port, parseDate: DateParse)
    requires AssertConsentReady(input, nowMillis, port, parseDate).Ok?
    ensures var consent := AssertConsentReady(input, nowMillis, port, parseDate).value;
      C.EvaluateConsentState(consent, nowMillis, port, parseDate) == C.Active
  {
  }

  /** How a successful mint came about. */
  lemma MintOutcome(m: MintInput, hash: HashFn, parseDate: DateParse) returns (consent: C.Consent, expiresAt: string)
    requires MintCapability(m, hash, parseDate).Ok?
    ensures C.NormalizeConsent(m.consent, parseDate) == Ok(consent)
    ensures Some(expiresAt) == if m.expiresAt.Some? then m.expiresAt else consent.expiresAt
    ensures C.ValidConsent(consent, parseDate) && consent.action.Grant? && IsoSecond(m.issuedAt)
    ensures m.consentPort(Subject(consent.consentHash, ConsentGrant)) == VerifiedNotRevoked
    ensures MintRequestError(m, consent).None? && MintTimeError(m, expiresAt, consent.expiresAt).None?
    ensures MintCapability(m, hash, parseDate) == Ok(Sealed(MintBase(m, consent, expiresAt), hash))
  {
    consent := AssertConsentReady(m.consent, parseDate(m.issuedAt).value, m.consentPort, parseDate).value;
    ReadyConsent(m.consent, parseDate(m.issuedAt).value, m.consentPort, parseDate);
    expiresAt := if m.expiresAt.Some? then m.expiresAt.value else consent.expiresAt.value;
  }

  /** A minted capability is no broader than its consent, which the port had vouched for. */
  lemma MintAttenuates(m: MintInput, hash: HashFn, parseDate: DateParse)
    requires MintCapability(m, hash, parseDate).Ok?
    ensures C.NormalizeConsent(m.consent, parseDate).Ok?
    ensures var consent := C.NormalizeConsent(m.consent, parseDate).value;
      var c := MintCapability(m, hash, parseDate).value;
      && Attenuates(c, consent) && HoldsRequest(c, m)
      && (m.expiresAt.None? ==> Some(c.expiresAt) == consent.expiresAt)
      && C.ValidConsent(consent, parseDate) && consent.action.Grant?
      && m.consentPort(Subject(consent.consentHash, ConsentGrant)) == VerifiedNotRevoked
  {
    var consent, expiresAt := MintOutcome(m, hash, parseDate);
    BaseAttenuates(m, consent, expiresAt, hash);
  }

  // ---------- when a mint succeeds ----------

  /** What a consent must offer for a request. */
  ghost predicate Offers(consent: C.Consent, m: MintInput) {
    && m.scope != [] && m.permissions != []
    && (forall e | e in m.scope :: Scope(e.kind, Norm(e.ref)) in consent.scope)
    && (forall p | p in m.permissions :: Norm(p) in consent.permissions)
    && (m.marketMakerId.Some? ==> m.marketMakerId == consent.marketMakerId)
  }

  /** Times in order and inside the consent's. */
  ghost predicate TimesFit(consent: C.Consent, m: MintInput, expiresAt: string) {
    && IsoSecond(expiresAt) && StrLt(m.issuedAt, expiresAt)
    && (consent.expiresAt.Some? ==> StrLeq(expiresAt, consent.expiresAt.value))
    && (m.notBefore.Some? ==>
          && IsoSecond(m.notBefore.value)
          && StrLeq(m.issuedAt, m.notBefore.value) && StrLt(m.notBefore.value, expiresAt))
  }

  lemma MintedScopeWithin(scope: seq<Scope>, allowed: seq<Scope>)
    requires forall e | e in allowed :: ValidEntry(e)
    ensures (forall e | e in MintScope(scope) :: Key(e) in Keys(allowed))
       <==> forall e | e in scope :: Scope(e.kind, Norm(e.ref)) in allowed
  {
    var normal := NormalScope(scope);
    KeyOrder();
    SortMembers(normal, KeyLeq);
    forall e | e in scope ensures Scope(e.kind, Norm(e.ref)) in normal {
      var i :| 0 <= i < |scope| && scope[i] == e;
      assert normal[i] == Scope(e.kind, Norm(e.ref));
    }
    forall e | e in normal ensures exists x :: x in scope && Scope(x.kind, Norm(x.ref)) == e {
      var i :| 0 <= i < |normal| && normal[i] == e;
      assert scope[i] in scope;
    }
    forall e ensures Key(e) in Keys(allowed) <==> e in allowed {
      KeyMember(e, allowed);
    }
  }

  lemma MintedPermissionsWithin(permissions: seq<string>, allowed: seq<string>)
    ensures (forall p | p in MintPermissions(permissions) :: p in allowed)
       <==> forall p | p in permissions :: Norm(p) in allowed
  {
    var normal := NormalPermissions(permissions);
    StringOrder();
    SortedSetMembers(normal, StrLeq);
    forall p | p in permissions ensures Norm(p) in normal {
      var i :| 0 <= i < |permissions| && permissions[i] == p;
      assert normal[i] == Norm(p);
    }
    forall p | p in normal ensures exists q :: q in permissions && Norm(q) == p {
      var i :| 0 <= i < |normal| && normal[i] == p;
      assert permissions[i] in permissions;
    }
  }

  lemma RequestIsOffered(m: MintInput, consent: C.Consent)
    requires forall e | e in consent.scope :: ValidEntry(e)
    ensures MintRequestError(m, consent).None? <==> Offers(consent, m)
  {
    MintedScopeWithin(m.scope, consent.scope);
    MintedPermissionsWithin(m.permissions, consent.permissions);
  }

  lemma TimesAreFit(m: MintInput, consent: C.Consent, expiresAt: string)
    ensures MintTimeError(m, expiresAt, consent.expiresAt).None? <==> TimesFit(consent, m, expiresAt)
  {
    if consent.expiresAt.Some? {
      StrLeqTotal(expiresAt, consent.expiresAt.value);
    }
    if m.notBefore.Some? {
      StrLeqTotal(m.issuedAt, m.notBefore.value);
    }
  }

  /** A capability is minted exactly from a consent active at the issue that offers what is asked for, to an expiry,
      asked for or the consent's own, that fits. */
  lemma MintedIff(m: MintInput, hash: HashFn, parseDate: DateParse)
    ensures MintCapability(m, hash, parseDate).Ok? <==>
      && IsoSecond(m.issuedAt) && parseDate(m.issuedAt).Some?
      && C.NormalizeConsent(m.consent, parseDate).Ok?
      && var consent := C.NormalizeConsent(m.consent, parseDate).value;
      && C.EvaluateConsentState(consent, parseDate(m.issuedAt).value, m.consentPort, parseDate) == C.Active
      && Offers(consent, m)
      && (if m.expiresAt.Some? then TimesFit(consent, m, m.expiresAt.value)
          else consent.expiresAt.Some? && TimesFit(consent, m, consent.expiresAt.value))
  {
    if IsoSecond(m.issuedAt) && parseDate(m.issuedAt).Some? && C.NormalizeConsent(m.consent, parseDate).Ok? {
      var consent := C.NormalizeConsent(m.consent, parseDate).value;
      if C.EvaluateConsentState(consent, parseDate(m.issuedAt).value, m.consentPort, parseDate) == C.Active {
        C.ActiveMeans(consent, parseDate(m.issuedAt).value, m.consentPort, parseDate);
        MintFromActive(m, consent, hash, parseDate);
      }
    }
  }

  lemma MintFromActive(m: MintInput, consent: C.Consent, hash: HashFn, parseDate: DateParse)
    requires IsoSecond(m.issuedAt) && parseDate(m.issuedAt).Some?
    requires C.NormalizeConsent(m.consent, parseDate) == Ok(consent) && C.ValidConsent(consent, parseDate)
    requires C.EvaluateConsentState(consent, parseDate(m.issuedAt).value, m.consentPort, parseDate) == C.Active
    ensures MintCapability(m, hash, parseDate).Ok? <==>
      && Offers(consent, m)
      && (if m.expiresAt.Some? then TimesFit(consent, m, m.expiresAt.value)
          else consent.expiresAt.Some? && TimesFit(consent, m, consent.expiresAt.value))
  {
    RequestIsOffered(m, consent);
    if m.expiresAt.Some? {
      TimesAreFit(m, consent, m.expiresAt.value);
    } else if consent.expiresAt.Some? {
      TimesAreFit(m, consent, consent.expiresAt.value);
    }
  }

  lemma SealedIsCanonical(m: MintInput, consent: C.Consent, expiresAt: string, hash: HashFn)
    requires forall e | e in consent.scope :: ValidEntry(e)
    requires forall p | p in consent.permissions :: PermissionText(p)
    requires MintRequestError(m, consent).None? && MintTimeError(m, expiresAt, consent.expiresAt).None?
    requires m.expiresAt.Some? ==> expiresAt == m.expiresAt.value
    requires Hex64(consent.consentHash) && Did(consent.subject) && Did(consent.grantee) && IsoSecond(m.issuedAt)
    requires consent.marketMakerId.Some? ==> Trim(consent.marketMakerId.value) == consent.marketMakerId.value
    ensures CanonicalUnderHash(Sealed(MintBase(m, consent, expiresAt), hash), hash)
  {
    BaseAttenuates(m, consent, expiresAt, hash);
    HashCovers(Sealed(MintBase(m, consent, expiresAt), hash), hash);
  }

  /** Whatever is minted is canonical under its hash, and altogether exactly when its metadata is an object if any: the
      mint takes metadata as it comes. */
  lemma MintIsCanonical(m: MintInput, hash: HashFn, parseDate: DateParse)
    requires MintCapability(m, hash, parseDate).Ok?
    ensures var c := MintCapability(m, hash, parseDate).value;
      && CanonicalUnderHash(c, hash) && c.metadata == m.metadata
      && (Canonical(c, hash) <==> ObjectOrNone(m.metadata))
  {
    var consent, expiresAt := MintOutcome(m, hash, parseDate);
    C.NormalizedStrings(m.consent, parseDate);
    SealedIsCanonical(m, consent, expiresAt, hash);
  }

  /** The mint/verify round trip, in every spelling of the minted scope and permissions. */
  lemma MintedVerifies(m: MintInput, d: Capability, hash: HashFn, parseDate: DateParse)
    requires MintCapability(m, hash, parseDate).Ok?
    requires Respelling(MintCapability(m, hash, parseDate).value, d)
    ensures var c := MintCapability(m, hash, parseDate).value;
      var consent := C.NormalizeConsent(m.consent, parseDate).value;
      VerifyCapability(Embed(d), hash) == Accepted(c) <==>
        consent.marketMakerId != Some("") && ObjectOrNone(m.metadata)
  {
    MintIsCanonical(m, hash, parseDate);
    var consent, _ := MintOutcome(m, hash, parseDate);
    C.NormalizedStrings(m.consent, parseDate);
    CanonicalVerifies(MintCapability(m, hash, parseDate).value, d, hash);
  }

  // ---------- state ----------

  datatype State = Active | Expired | NotYetActive | RevokedState | RevocationUnknown | Invalid

  function EvaluateCapabilityState(input: CapabilityInput, now: Instant, port: Port, hash: HashFn): State {
    StateOf(VerifyCapability(input, hash), now, port)
  }

  function StateOf(verification: Verification, now: Instant, port: Port): State {
    match verification
    case Rejected(_) => Invalid
    case Accepted(c) =>
      match Resolve(port(Subject(c.capabilityHash, CapabilityGrant)))
      case IsRevoked => RevokedState
      case IsUnknown => RevocationUnknown
      case IsClear =>
        if c.notBefore.Some? && StrLt(now.iso, c.notBefore.value) then NotYetActive
        else if StrLeq(c.expiresAt, now.iso) then Expired
        else Active
  }

  /** The state of an accepted capability, as the port answers and the instant's text compares. */
  lemma StateTells(c: Capability, now: Instant, port: Port)
    ensures var answer, state := port(Subject(c.capabilityHash, CapabilityGrant)), StateOf(Accepted(c), now, port);
      var early := c.notBefore.Some? && StrLt(now.iso, c.notBefore.value);
      && (state == RevokedState <==> answer == Revoked)
      && (state == RevocationUnknown <==> answer != Revoked && answer != VerifiedNotRevoked)
      && (state == NotYetActive <==> answer == VerifiedNotRevoked && early)
      && (state == Expired <==> answer == VerifiedNotRevoked && !early && StrLeq(c.expiresAt, now.iso))
      && (state == Active <==> answer == VerifiedNotRevoked && !early && StrLt(now.iso, c.expiresAt))
  {
  }

  /** Comparing a text with milliseconds with one without: within one second the point sorts before the `Z`. */
  lemma SecondsCompareInclusively(second: string, limit: string, millis: string)
    requires |second| == |limit|
    ensures StrLeq(limit + "Z", second + "." + millis) <==> StrLt(limit, second)
    ensures StrLt(second + "." + millis, limit + "Z") <==> StrLeq(second, limit)
  {
    var instant := "." + millis;
    assert second + "." + millis == second + instant;
    StrLeqTotal(limit, second);
    if second == limit {
      StrLeqPrefix(second, "Z", instant);
      assert StrLeq(limit, second);
    } else {
      StrLeqHeads(limit, second, "Z", instant);
      if StrLeq(limit, second) && StrLeq(second, limit) {
        StrLeqAntisymmetric(limit, second);
      }
    }
  }

  lemma SameSuffix(a: string, b: string)
    requires |a| == |b|
    ensures StrLeq(a + "Z", b + "Z") <==> StrLeq(a, b)
  {
    StrLeqTotal(a, b);
    if a == b {
      StrLeqTotal(a + "Z", b + "Z");
    } else {
      StrLeqHeads(a, b, "Z", "Z");
    }
  }

  /** The state of an accepted capability whose hash the port reports clear, at an instant. */
  function ClearState(c: Capability, early: bool, late: bool): State {
    if c.notBefore.Some? && early then NotYetActive else if late then Expired else Active
  }

  lemma InstantAgainst(now: Instant, limit: string)
    requires MillisText(now.iso) && IsoSecond(limit)
    ensures StrLt(now.iso, limit) <==> StrLeq(SecondOf(now), limit)
    ensures StrLeq(limit, now.iso) <==> StrLt(limit, SecondOf(now))
  {
    var second, bare, millis := now.iso[..19], limit[..19], now.iso[20..];
    assert now.iso == second + "." + millis && limit == bare + "Z";
    SecondsCompareInclusively(second, bare, millis);
    SameSuffix(second, bare);
    SameSuffix(bare, second);
  }

  /** Only whole seconds count: a capability stays active until its expiry's second is over, and inactive through all
      of the second of its start. */
  lemma StateBySecond(c: Capability, now: Instant, port: Port)
    requires MillisText(now.iso) && IsoSecond(c.expiresAt) && (c.notBefore.Some? ==> IsoSecond(c.notBefore.value))
    requires Resolve(port(Subject(c.capabilityHash, CapabilityGrant))) == IsClear
    ensures StateOf(Accepted(c), now, port) == ClearState(
      c, c.notBefore.Some? && StrLeq(SecondOf(now), c.notBefore.value), StrLt(c.expiresAt, SecondOf(now)))
  {
    InstantAgainst(now, c.expiresAt);
    if c.notBefore.Some? {
      InstantAgainst(now, c.notBefore.value);
    }
  }

  /** The least text of the shape of a date. */
  const FIRST_SECOND := "0000-00-00T00:00:00Z"

  lemma FirstSecond(text: string)
    requires IsoSecond(text)
    ensures IsoSecond(FIRST_SECOND) && StrLeq(FIRST_SECOND, text)
    ensures StrLeq(text, FIRST_SECOND) ==> text == FIRST_SECOND
  {
    assert forall i | 0 <= i < 20 :: FIRST_SECOND[i] <= text[i];
    PointwiseLeq(FIRST_SECOND, text);
    if StrLeq(text, FIRST_SECOND) {
      StrLeqAntisymmetric(text, FIRST_SECOND);
    }
  }

  /** Nothing compares an instant with a capability's issue. A capability, while the port reports it clear, is active
      only from its issue on exactly when it has a start, which is never before the issue, or is issued at the least
      time there is. */
  lemma ActiveFromIssueIff(c: Capability, port: Port)
    requires IsoSecond(c.issuedAt) && IsoSecond(c.expiresAt)
    requires c.notBefore.Some? ==> IsoSecond(c.notBefore.value) && StrLeq(c.issuedAt, c.notBefore.value)
    requires Resolve(port(Subject(c.capabilityHash, CapabilityGrant))) == IsClear
    ensures (forall now: Instant | MillisText(now.iso) && StateOf(Accepted(c), now, port) == Active ::
               StrLeq(c.issuedAt, SecondOf(now)))
       <==> c.notBefore.Some? || c.issuedAt == FIRST_SECOND
  {
    if c.notBefore.Some? {
      forall now: Instant | MillisText(now.iso) && StateOf(Accepted(c), now, port) == Active
        ensures StrLeq(c.issuedAt, SecondOf(now))
      {
        StateBySecond(c, now, port);
        StrLeqTotal(SecondOf(now), c.notBefore.value);
        StrLeqTransitive(c.issuedAt, c.notBefore.value, SecondOf(now));
      }
    } else {
      FirstSecond(c.issuedAt);
      FirstSecond(c.expiresAt);
      var now := ActiveThroughout(c, FIRST_SECOND, port);
      if c.issuedAt == FIRST_SECOND {
        forall now: Instant | MillisText(now.iso) ensures StrLeq(c.issuedAt, SecondOf(now)) {
          FirstSecond(SecondOf(now));
        }
      }
    }
  }

  lemma ActiveThroughout(c: Capability, second: string, port: Port) returns (now: Instant)
    requires IsoSecond(second) && IsoSecond(c.expiresAt) && StrLeq(second, c.expiresAt) && c.notBefore.None?
    requires Resolve(port(Subject(c.capabilityHash, CapabilityGrant))) == IsClear
    ensures MillisText(now.iso) && SecondOf(now) == second && StateOf(Accepted(c), now, port) == Active
  {
    now := Instant(0, second[..19] + ".000Z");
    assert now.iso[..19] == second[..19];
    StateBySecond(c, now, port);
  }

  /** So whatever is minted without a start is active at an instant before its issue. */
  lemma ActiveBeforeIssue(m: MintInput, hash: HashFn, parseDate: DateParse, port: Port) returns (now: Instant)
    requires MintCapability(m, hash, parseDate).Ok? && m.notBefore.None? && m.issuedAt != FIRST_SECOND
    requires Resolve(port(Subject(MintCapability(m, hash, parseDate).value.capabilityHash, CapabilityGrant))) == IsClear
    ensures MillisText(now.iso) && StrLt(SecondOf(now), m.issuedAt)
    ensures StateOf(Accepted(MintCapability(m, hash, parseDate).value), now, port) == Active
  {
    var c := MintCapability(m, hash, parseDate).value;
    MintIsCanonical(m, hash, parseDate);
    var _, _ := MintOutcome(m, hash, parseDate);
    FirstSecond(m.issuedAt);
    FirstSecond(c.expiresAt);
    now := ActiveThroughout(c, FIRST_SECOND, port);
  }

  // ---------- the access decision ----------

  datatype AccessRequest = AccessRequest(
    scope: seq<Scope>, permissions: seq<string>, subject: Option<string>, grantee: Option<string>,
    marketMakerId: Option<string>, now: Instant)

  predicate BindingMatches(requested: Option<string>, actual: Option<string>) {
    requested.Some? ==> requested == actual
  }

  function EvaluateCapabilityAccess(input: CapabilityInput, r: AccessRequest, port: Port, hash: HashFn): bool {
    AccessFor(VerifyCapability(input, hash), r, port)
  }

  predicate AccessFor(verification: Verification, r: AccessRequest, port: Port) {
    && StateOf(verification, r.now, port) == Active
    && r.scope != [] && r.permissions != []
    && verification.Accepted?
    && var c := verification.capability;
    && BindingMatches(r.subject, Some(c.subject))
    && BindingMatches(r.grantee, Some(c.grantee))
    && BindingMatches(r.marketMakerId, c.marketMakerId)
    && (forall e | e in r.scope :: Trim(e.ref) != "" && Key(NormalEntry(e)) in Keys(c.scope))
    && (forall p | p in r.permissions :: Trim(p) != "" && Norm(p) in c.permissions)
  }
}
