/** Runtime capabilities: delegation checks, attenuation, use of a capability in a session, and obligations. */
module RuntimeCapabilities {
  import opened Options
  import opened Text
  import opened Sorting
  import opened Values

  datatype Status = Issued | Active | Suspended | RevokedStatus | ExpiredStatus

  datatype AiBoundary = AiBoundary(
    allowedPurposes: Option<seq<string>>,
    blockedScopes: Option<seq<string>>,
    requiresHumanReview: bool,
    maxAutonomousUses: Option<int>,
    autonomousUseCount: Option<int>)

  datatype RuntimeCapability = RuntimeCapability(
    capabilityId: string,
    subjectActorId: string,
    granteeActorId: string,
    scope: seq<string>,
    allowedActions: seq<string>,
    notBefore: Option<string>,
    expiresAt: Option<string>,
    revokedAt: Option<string>,
    status: Status,
    aiBoundary: Option<AiBoundary>)

  datatype Session = Session(actorId: string, action: string, resourceId: string, purpose: Option<string>)

  // ---------- delegation ----------

  datatype Issue = SubjectMismatch | GranteeMismatch | LifetimeEscalation | ActionEscalation | ScopeEscalation

  /** `p` is a prefix of `s`. */
  predicate StartsWith(s: string, p: string) {
    p <= s
  }

  /** The string covers one of the prefixes. */
  predicate CoveredBy(s: string, prefixes: seq<string>) {
    exists p | p in prefixes :: StartsWith(s, p)
  }

  /** Expiry texts are compared as strings, and only when both are present and not empty. */
  predicate LongerLived(parent: RuntimeCapability, child: RuntimeCapability) {
    && parent.expiresAt.Some? && parent.expiresAt.value != ""
    && child.expiresAt.Some? && child.expiresAt.value != ""
    && StrLt(parent.expiresAt.value, child.expiresAt.value)
  }

  predicate WiderActions(parent: RuntimeCapability, child: RuntimeCapability) {
    exists a | a in child.allowedActions :: a !in parent.allowedActions
  }

  predicate WiderScope(parent: RuntimeCapability, child: RuntimeCapability) {
    exists s | s in child.scope :: !CoveredBy(s, parent.scope)
  }

  predicate HasIssue(issue: Issue, parent: RuntimeCapability, child: RuntimeCapability) {
    match issue
    case SubjectMismatch => parent.subjectActorId != child.subjectActorId
    case GranteeMismatch => parent.granteeActorId != child.granteeActorId
    case LifetimeEscalation => LongerLived(parent, child)
    case ActionEscalation => WiderActions(parent, child)
    case ScopeEscalation => WiderScope(parent, child)
  }

  function With(issues: seq<Issue>, issue: Issue, parent: RuntimeCapability, child: RuntimeCapability): seq<Issue> {
    if HasIssue(issue, parent, child) then issues + [issue] else issues
  }

  /** The issues of a delegation, in the order in which they are looked for. */
  function Issues(parent: RuntimeCapability, child: RuntimeCapability): seq<Issue> {
    var identity := With(With([], SubjectMismatch, parent, child), GranteeMismatch, parent, child);
    var reach := With(With(identity, LifetimeEscalation, parent, child), ActionEscalation, parent, child);
    With(reach, ScopeEscalation, parent, child)
  }

  lemma IssuesExactly(parent: RuntimeCapability, child: RuntimeCapability, issue: Issue)
    ensures issue in Issues(parent, child) <==> HasIssue(issue, parent, child)
  {
    var s1 := With([], SubjectMismatch, parent, child);
    var s2 := With(s1, GranteeMismatch, parent, child);
    var s3 := With(s2, LifetimeEscalation, parent, child);
    var s4 := With(s3, ActionEscalation, parent, child);
    WithMembers([], SubjectMismatch, parent, child, issue);
    WithMembers(s1, GranteeMismatch, parent, child, issue);
    WithMembers(s2, LifetimeEscalation, parent, child, issue);
    WithMembers(s3, ActionEscalation, parent, child, issue);
    WithMembers(s4, ScopeEscalation, parent, child, issue);
  }

  lemma WithMembers(
    issues: seq<Issue>, issue: Issue, parent: RuntimeCapability, child: RuntimeCapability, other: Issue)
    ensures other in With(issues, issue, parent, child)
       <==> other in issues || (other == issue && HasIssue(issue, parent, child))
  {
  }

  method ValidateDelegation(parent: RuntimeCapability, child: RuntimeCapability) returns (issues: seq<Issue>)
    ensures issues == Issues(parent, child)
    ensures forall issue :: issue in issues <==> HasIssue(issue, parent, child)
  {
    issues := [];
    if parent.subjectActorId != child.subjectActorId {
      issues := issues + [SubjectMismatch];
    }
    if parent.granteeActorId != child.granteeActorId {
      issues := issues + [GranteeMismatch];
    }
    if LongerLived(parent, child) {
      issues := issues + [LifetimeEscalation];
    }
    if WiderActions(parent, child) {
      issues := issues + [ActionEscalation];
    }
    if WiderScope(parent, child) {
      issues := issues + [ScopeEscalation];
    }
    forall issue ensures issue in Issues(parent, child) <==> HasIssue(issue, parent, child) {
      IssuesExactly(parent, child, issue);
    }
  }

  // ---------- attenuation ----------

  datatype Patch = Patch(
    allowedActions: Option<seq<string>>,
    scope: Option<seq<string>>,
    expiresAt: Option<string>,
    notBefore: Option<string>)

  /** `patch ?? parent` */
  function Or<T>(patch: Option<T>, parent: T): T {
    if patch.Some? then patch.value else parent
  }

  function OrOpt<T>(patch: Option<T>, parent: Option<T>): Option<T> {
    if patch.Some? then patch else parent
  }

  function Patched(parent: RuntimeCapability, patch: Patch): RuntimeCapability {
    parent.(
      allowedActions := Or(patch.allowedActions, parent.allowedActions),
      scope := Or(patch.scope, parent.scope),
      expiresAt := OrOpt(patch.expiresAt, parent.expiresAt),
      notBefore := OrOpt(patch.notBefore, parent.notBefore))
  }

  function AttenuateCapability(parent: RuntimeCapability, patch: Patch): Result<RuntimeCapability, seq<Issue>> {
    var next := Patched(parent, patch);
    var issues := Issues(parent, next);
    if issues != [] then Err(issues) else Ok(next)
  }

  /** A chain of attenuations, ending at the first that fails. */
  function AttenuateAll(root: RuntimeCapability, patches: seq<Patch>): Result<RuntimeCapability, seq<Issue>>
    decreases |patches|
  {
    if patches == [] then Ok(root)
    else
      match AttenuateCapability(root, patches[0])
      case Err(issues) => Err(issues)
      case Ok(next) => AttenuateAll(next, patches[1..])
  }

  lemma AttenuatedExactly(parent: RuntimeCapability, patch: Patch)
    ensures AttenuateCapability(parent, patch).Ok? <==>
      var child := Patched(parent, patch);
      && !LongerLived(parent, child)
      && (forall a | a in child.allowedActions :: a in parent.allowedActions)
      && (forall s | s in child.scope :: CoveredBy(s, parent.scope))
  {
    var child := Patched(parent, patch);
    var issues := Issues(parent, child);
    IssuesExactly(parent, child, LifetimeEscalation);
    IssuesExactly(parent, child, ActionEscalation);
    IssuesExactly(parent, child, ScopeEscalation);
    if issues != [] {
      IssuesExactly(parent, child, issues[0]);
    }
  }

  // ---------- use ----------

  /** `now < new Date(text)`; no comparison with an invalid date holds. */
  predicate Before(now: int, text: string, parse: DateParse) {
    parse(text).Some? && now < parse(text).value
  }

  predicate After(now: int, text: string, parse: DateParse) {
    parse(text).Some? && now > parse(text).value
  }

  predicate Started(c: RuntimeCapability, now: int, parse: DateParse) {
    c.notBefore.None? || !Before(now, c.notBefore.value, parse)
  }

  predicate Ended(c: RuntimeCapability, now: int, parse: DateParse) {
    c.expiresAt.Some? && After(now, c.expiresAt.value, parse)
  }

  predicate IsCapabilityCurrentlyValid(c: RuntimeCapability, now: int, parse: DateParse) {
    c.status == Active && c.revokedAt.None? && Started(c, now, parse) && !Ended(c, now, parse)
  }

  datatype Reason =
    | CapabilityNotValid
    | ActorNotGrantee
    | ActionNotAllowed
    | ResourceOutOfScope
    | AiBlockedScope
    | AiPurposeNotAllowed
    | AiMaxAutonomousUsesExceeded
    | AiHumanReviewRequired

  datatype UseDecision = Allow | Deny(reason: Reason, requiresHumanReview: bool)

  function AiDenial(b: AiBoundary, s: Session): Option<UseDecision> {
    if b.blockedScopes.Some? && CoveredBy(s.resourceId, b.blockedScopes.value) then Some(Deny(AiBlockedScope, false))
    else if b.allowedPurposes.Some? && s.purpose.Some? && s.purpose.value != ""
            && s.purpose.value !in b.allowedPurposes.value then Some(Deny(AiPurposeNotAllowed, false))
    else if b.maxAutonomousUses.Some? && Or(b.autonomousUseCount, 0) >= b.maxAutonomousUses.value
    then Some(Deny(AiMaxAutonomousUsesExceeded, true))
    else if b.requiresHumanReview then Some(Deny(AiHumanReviewRequired, true))
    else None
  }

  /** The decision without a policy adapter. */
  function EvaluateCapabilityUse(c: RuntimeCapability, s: Session, now: int, parse: DateParse): UseDecision {
    if !IsCapabilityCurrentlyValid(c, now, parse) then Deny(CapabilityNotValid, false)
    else if s.actorId != c.granteeActorId then Deny(ActorNotGrantee, false)
    else if s.action !in c.allowedActions then Deny(ActionNotAllowed, false)
    else if !CoveredBy(s.resourceId, c.scope) then Deny(ResourceOutOfScope, false)
    else if c.aiBoundary.Some? && AiDenial(c.aiBoundary.value, s).Some? then AiDenial(c.aiBoundary.value, s).value
    else Allow
  }

  // ---------- what attenuation promises ----------

  /** Everything a use depends on apart from the clock. */
  predicate Permits(c: RuntimeCapability, s: Session) {
    && c.status == Active && c.revokedAt.None?
    && s.actorId == c.granteeActorId
    && s.action in c.allowedActions
    && CoveredBy(s.resourceId, c.scope)
    && (c.aiBoundary.Some? ==> AiDenial(c.aiBoundary.value, s).None?)
  }

  lemma AllowedExactly(c: RuntimeCapability, s: Session, now: int, parse: DateParse)
    ensures EvaluateCapabilityUse(c, s, now, parse) == Allow
       <==> Permits(c, s) && Started(c, now, parse) && !Ended(c, now, parse)
    ensures Permits(c, s) && EvaluateCapabilityUse(c, s, now, parse) != Allow ==>
       EvaluateCapabilityUse(c, s, now, parse) == Deny(CapabilityNotValid, false)
  {
  }

  lemma CoverTransitive(s: string, inner: seq<string>, outer: seq<string>)
    requires CoveredBy(s, inner) && forall p | p in inner :: CoveredBy(p, outer)
    ensures CoveredBy(s, outer)
  {
    var p :| p in inner && StartsWith(s, p);
    var q :| q in outer && StartsWith(p, q);
    assert StartsWith(s, q);
  }

  lemma StepPermits(parent: RuntimeCapability, patch: Patch, s: Session)
    requires AttenuateCapability(parent, patch).Ok?
    requires Permits(AttenuateCapability(parent, patch).value, s)
    ensures Permits(parent, s)
  {
    AttenuatedExactly(parent, patch);
    CoverTransitive(s.resourceId, Patched(parent, patch).scope, parent.scope);
  }

  lemma {:induction false} ChainPermits(root: RuntimeCapability, patches: seq<Patch>, s: Session)
    requires AttenuateAll(root, patches).Ok? && Permits(AttenuateAll(root, patches).value, s)
    ensures Permits(root, s)
    decreases |patches|
  {
    if patches != [] {
      ChainPermits(AttenuateCapability(root, patches[0]).value, patches[1..], s);
      StepPermits(root, patches[0], s);
    }
  }

  /** What a descendant allows, its root allows at every instant of the root's own life, and outside of it the root
      denies it for that reason alone. */
  lemma DescendantUse(root: RuntimeCapability, patches: seq<Patch>, s: Session, now: int, at: int, parse: DateParse)
    requires AttenuateAll(root, patches).Ok?
    requires EvaluateCapabilityUse(AttenuateAll(root, patches).value, s, now, parse) == Allow
    ensures EvaluateCapabilityUse(root, s, at, parse) ==
      if Started(root, at, parse) && !Ended(root, at, parse) then Allow else Deny(CapabilityNotValid, false)
  {
    AllowedExactly(AttenuateAll(root, patches).value, s, now, parse);
    ChainPermits(root, patches, s);
    AllowedExactly(root, s, at, parse);
  }

  // ---------- lifetimes ----------

  predicate EndsAt(c: RuntimeCapability, parse: DateParse) {
    c.expiresAt.Some? && parse(c.expiresAt.value).Some?
  }

  predicate StartsAt(c: RuntimeCapability, parse: DateParse) {
    c.notBefore.Some? && parse(c.notBefore.value).Some?
  }

  function End(c: RuntimeCapability, parse: DateParse): int
    requires EndsAt(c, parse)
  {
    parse(c.expiresAt.value).value
  }

  function Start(c: RuntimeCapability, parse: DateParse): int
    requires StartsAt(c, parse)
  {
    parse(c.notBefore.value).value
  }

  /** The one capability has ended whenever the other has. */
  ghost predicate EndsWithin(c: RuntimeCapability, outer: RuntimeCapability, parse: DateParse) {
    forall now :: Ended(outer, now, parse) ==> Ended(c, now, parse)
  }

  lemma EndsWithinIff(c: RuntimeCapability, outer: RuntimeCapability, parse: DateParse)
    ensures EndsWithin(c, outer, parse) <==>
      (EndsAt(outer, parse) ==> EndsAt(c, parse) && End(c, parse) <= End(outer, parse))
  {
    if EndsAt(outer, parse) && !(EndsAt(c, parse) && End(c, parse) <= End(outer, parse)) {
      var late := End(outer, parse) + 1;
      assert Ended(outer, late, parse) && !Ended(c, late, parse);
    }
  }

  /** The expiry a chain of attenuations ends with: the last one asked for, or else the root's. */
  function LastExpiry(root: RuntimeCapability, patches: seq<Patch>): Option<string>
    decreases |patches|
  {
    if patches == [] then root.expiresAt else LastExpiry(Patched(root, patches[0]), patches[1..])
  }

  lemma {:induction false} ChainExpiry(root: RuntimeCapability, patches: seq<Patch>)
    requires AttenuateAll(root, patches).Ok?
    ensures AttenuateAll(root, patches).value.expiresAt == LastExpiry(root, patches)
    decreases |patches|
  {
    if patches != [] {
      ChainExpiry(Patched(root, patches[0]), patches[1..]);
    }
  }

  /** A chain of attenuations stays within its root's life exactly when the root does not end, or the last expiry
      asked for can be read and is no later. The lifetime check, which compares texts, does not see to it. */
  lemma ChainOutlivesIff(root: RuntimeCapability, patches: seq<Patch>, parse: DateParse)
    requires AttenuateAll(root, patches).Ok?
    ensures EndsWithin(AttenuateAll(root, patches).value, root, parse) <==>
      (EndsAt(root, parse) ==>
         var last := LastExpiry(root, patches);
         last.Some? && parse(last.value).Some? && parse(last.value).value <= End(root, parse))
  {
    ChainExpiry(root, patches);
    EndsWithinIff(AttenuateAll(root, patches).value, root, parse);
  }

  predicate Readable(text: Option<string>, parse: DateParse) {
    text.None? || (text.value != "" && parse(text.value).Some?)
  }

  function ExpiryTexts(root: RuntimeCapability, patches: seq<Patch>): set<string> {
    (if root.expiresAt.Some? then {root.expiresAt.value} else {})
    + set i | 0 <= i < |patches| && patches[i].expiresAt.Some? :: patches[i].expiresAt.value
  }

  /** The text check does see to it when every expiry can be read and texts order as instants do, as they do within
      one format and time zone. */
  lemma {:induction false} OrderlyChainEndsWithin(root: RuntimeCapability, patches: seq<Patch>, parse: DateParse)
    requires AttenuateAll(root, patches).Ok?
    requires Readable(root.expiresAt, parse) && forall i | 0 <= i < |patches| :: Readable(patches[i].expiresAt, parse)
    requires Orderly(ExpiryTexts(root, patches), parse)
    ensures EndsWithin(AttenuateAll(root, patches).value, root, parse)
    decreases |patches|
  {
    if patches != [] {
      var next, rest := Patched(root, patches[0]), patches[1..];
      assert forall i | 0 <= i < |rest| :: rest[i] == patches[i + 1];
      assert ExpiryTexts(next, rest) <= ExpiryTexts(root, patches) by {
        forall i | 0 <= i < |rest| && rest[i].expiresAt.Some?
          ensures rest[i].expiresAt.value in ExpiryTexts(root, patches)
        {
          assert rest[i] == patches[i + 1];
        }
      }
      AttenuatedExactly(root, patches[0]);
      EndsWithinIff(next, root, parse);
      OrderlyChainEndsWithin(next, rest, parse);
    }
  }

  function Max(a: int, b: int): int {
    if a < b then b else a
  }

  /** The first instant after the root's end at which the root and its descendant have both started. */
  function FirstPast(root: RuntimeCapability, leaf: RuntimeCapability, parse: DateParse): int
    requires EndsAt(root, parse)
  {
    var past := End(root, parse) + 1;
    var started := if StartsAt(root, parse) then Max(past, Start(root, parse)) else past;
    if StartsAt(leaf, parse) then Max(started, Start(leaf, parse)) else started
  }

  /** A use the descendant allows is allowed on the root at the same instant just if the root has started: this holds
      at every instant exactly when the root does not end, or the descendant ends before it could be used past that. */
  lemma DescendantUseIff(root: RuntimeCapability, patches: seq<Patch>, s: Session, parse: DateParse)
    requires AttenuateAll(root, patches).Ok? && Permits(AttenuateAll(root, patches).value, s)
    ensures var leaf := AttenuateAll(root, patches).value;
      (forall now :: EvaluateCapabilityUse(leaf, s, now, parse) == Allow ==>
         (EvaluateCapabilityUse(root, s, now, parse) == Allow <==> Started(root, now, parse)))
      <==>
      (EndsAt(root, parse) ==> EndsAt(leaf, parse) && End(leaf, parse) < FirstPast(root, leaf, parse))
  {
    var leaf := AttenuateAll(root, patches).value;
    ChainPermits(root, patches, s);
    forall now
      ensures EvaluateCapabilityUse(leaf, s, now, parse) == Allow <==>
        Started(leaf, now, parse) && !Ended(leaf, now, parse)
      ensures EvaluateCapabilityUse(root, s, now, parse) == Allow <==>
        Started(root, now, parse) && !Ended(root, now, parse)
    {
      AllowedExactly(leaf, s, now, parse);
      AllowedExactly(root, s, now, parse);
    }
    if EndsAt(root, parse) && !(EndsAt(leaf, parse) && End(leaf, parse) < FirstPast(root, leaf, parse)) {
      var now := FirstPast(root, leaf, parse);
      assert Started(leaf, now, parse) && !Ended(leaf, now, parse);
      assert Started(root, now, parse) && Ended(root, now, parse);
      assert EvaluateCapabilityUse(leaf, s, now, parse) == Allow;
    }
  }

  /** In particular a descendant that ends within its root's life is used only when the root could be, if it has
      started. */
  lemma DescendantUseNow(root: RuntimeCapability, patches: seq<Patch>, s: Session, now: int, parse: DateParse)
    requires AttenuateAll(root, patches).Ok? && EndsWithin(AttenuateAll(root, patches).value, root, parse)
    requires EvaluateCapabilityUse(AttenuateAll(root, patches).value, s, now, parse) == Allow
    ensures EvaluateCapabilityUse(root, s, now, parse) == Allow <==> Started(root, now, parse)
  {
    DescendantUse(root, patches, s, now, now, parse);
    AllowedExactly(AttenuateAll(root, patches).value, s, now, parse);
  }

  /** One attenuation stays within its parent's life exactly when the parent does not end, or the child's expiry can be
      read and is no later as an instant. */
  lemma OutlivesIff(parent: RuntimeCapability, patch: Patch, parse: DateParse)
    requires AttenuateCapability(parent, patch).Ok?
    ensures var child := AttenuateCapability(parent, patch).value;
      EndsWithin(child, parent, parse) <==>
      (EndsAt(parent, parse) ==> EndsAt(child, parse) && End(child, parse) <= End(parent, parse))
  {
    EndsWithinIff(AttenuateCapability(parent, patch).value, parent, parse);
  }

  /** Nothing ties the start of a capability to its parent's: attenuation succeeds whatever start is asked for, and
      the child starts no earlier exactly if its start can be read and is not before the parent's. */
  lemma StartsEarlierIff(parent: RuntimeCapability, patch: Patch, start: Option<string>, parse: DateParse)
    requires AttenuateCapability(parent, patch).Ok?
    ensures AttenuateCapability(parent, patch.(notBefore := start)).Ok?
    ensures StartsAt(parent, parse) ==>
      var child := AttenuateCapability(parent, patch).value;
      (forall now :: Started(child, now, parse) ==> Started(parent, now, parse))
      <==> StartsAt(child, parse) && Start(parent, parse) <= Start(child, parse)
  {
    AttenuatedExactly(parent, patch);
    AttenuatedExactly(parent, patch.(notBefore := start));
    if StartsAt(parent, parse) {
      var child := Patched(parent, patch);
      var early := Start(parent, parse) - 1;
      assert !Started(parent, early, parse);
      if StartsAt(child, parse) {
        assert Started(child, Start(child, parse), parse);
      } else {
        assert Started(child, early, parse);
      }
    }
  }

  /** A capability over one resource with the given expiry. */
  function Lent(expiresAt: string): RuntimeCapability {
    RuntimeCapability("c", "owner", "agent", ["r"], ["read"], None, Some(expiresAt), None, Active, None)
  }

  /** The attenuation to another expiry passes, and there is an instant at which only the attenuated capability can
      still be used. */
  ghost predicate Escapes(parentExpiry: string, childExpiry: string, parse: DateParse) {
    var parent, patch := Lent(parentExpiry), Patch(None, None, Some(childExpiry), None);
    && AttenuateCapability(parent, patch).Ok?
    && exists now ::
      var s := Session("agent", "read", "r", None);
      && EvaluateCapabilityUse(AttenuateCapability(parent, patch).value, s, now, parse) == Allow
      && EvaluateCapabilityUse(parent, s, now, parse) == Deny(CapabilityNotValid, false)
  }

  lemma EscapesBy(parentExpiry: string, childExpiry: string, parse: DateParse)
    requires parentExpiry == "" || childExpiry == "" || StrLeq(childExpiry, parentExpiry)
    requires parse(parentExpiry).Some?
    requires parse(childExpiry).Some? ==> parse(parentExpiry).value < parse(childExpiry).value
    ensures Escapes(parentExpiry, childExpiry, parse)
  {
    var parent, patch := Lent(parentExpiry), Patch(None, None, Some(childExpiry), None);
    var s, now := Session("agent", "read", "r", None), parse(parentExpiry).value + 1;
    assert StartsWith("r", "r");
    assert CoveredBy("r", ["r"]);
    AttenuatedExactly(parent, patch);
    AllowedExactly(Patched(parent, patch), s, now, parse);
    assert Ended(parent, now, parse);
    assert EvaluateCapabilityUse(parent, s, now, parse) == Deny(CapabilityNotValid, false);
  }

  /** Instances: an empty expiry text is not compared and never ends; a time with an offset sorts before the earlier
      time with a `Z`, as `-` does before `Z`, and ends five hours after it. */
  lemma ExpiryEscapes(parse: DateParse, t: int)
    requires parse("").None?
    requires parse("2025-01-01T00:00:00Z") == Some(t) && parse("2025-01-01T00:00:00-05:00") == Some(t + 5 * 3_600_000)
    ensures Escapes("2025-01-01T00:00:00Z", "", parse)
    ensures Escapes("2025-01-01T00:00:00Z", "2025-01-01T00:00:00-05:00", parse)
  {
    var head := "2025-01-01T00:00:00";
    assert head + "Z" == "2025-01-01T00:00:00Z" && head + "-05:00" == "2025-01-01T00:00:00-05:00";
    StrLeqPrefix(head, "-05:00", "Z");
    EscapesBy("2025-01-01T00:00:00Z", "", parse);
    EscapesBy("2025-01-01T00:00:00Z", "2025-01-01T00:00:00-05:00", parse);
  }

  // ---------- obligations ----------

  datatype Obligation = Obligation(code: string, required: bool, details: Option<string>)

  predicate CodeLeq(a: Obligation, b: Obligation) {
    StrLeq(a.code, b.code)
  }

  /** Building a map from a list keeps the last item under each code. */
  function LastWith(items: seq<Obligation>, code: string): (r: Option<Obligation>)
    ensures r.Some? ==> r.value in items && r.value.code == code
    ensures r.None? ==> forall o | o in items :: o.code != code
  {
    if items == [] then None
    else
      var last := items[|items| - 1];
      assert items == items[..|items| - 1] + [last];
      if last.code == code then Some(last) else LastWith(items[..|items| - 1], code)
  }

  function MergeOne(existing: Option<Obligation>, o: Obligation): Obligation {
    if existing.None? then o
    else existing.value.(
      required := existing.value.required || o.required, details := OrOpt(o.details, existing.value.details))
  }

  /** What the merge holds under a code once the children have been taken in. */
  function MergedAt(parent: seq<Obligation>, child: seq<Obligation>, code: string): Option<Obligation>
    decreases |child|
  {
    if child == [] then LastWith(parent, code)
    else
      var earlier, last := MergedAt(parent, child[..|child| - 1], code), child[|child| - 1];
      if last.code == code then Some(MergeOne(earlier, last)) else earlier
  }

  predicate Demanded(items: seq<Obligation>, code: string) {
    exists o | o in items :: o.code == code && o.required
  }

  predicate Mentioned(items: seq<Obligation>, code: string) {
    exists o | o in items :: o.code == code
  }

  /** The last details given under a code. */
  function DetailsOf(items: seq<Obligation>, code: string): Option<string> {
    if items == [] then None
    else
      var last := items[|items| - 1];
      if last.code == code && last.details.Some? then last.details else DetailsOf(items[..|items| - 1], code)
  }

  /** The merge in closed form: a code is kept if either side has it, is required if the parent's entry or any
      child's requires it, and carries the last details given. */
  function Combined(parent: Option<Obligation>, child: seq<Obligation>, code: string): Option<Obligation> {
    if parent.None? && !Mentioned(child, code) then None
    else Some(Obligation(
      code,
      (parent.Some? && parent.value.required) || Demanded(child, code),
      OrOpt(DetailsOf(child, code), if parent.Some? then parent.value.details else None)))
  }

  lemma SplitLast(child: seq<Obligation>, code: string)
    requires child != []
    ensures var front, last := child[..|child| - 1], child[|child| - 1];
      && (Mentioned(child, code) <==> Mentioned(front, code) || last.code == code)
      && (Demanded(child, code) <==> Demanded(front, code) || (last.code == code && last.required))
  {
    var front, last := child[..|child| - 1], child[|child| - 1];
    assert last in child && child == front + [last];
    assert forall o | o in front :: o in child;
    assert forall o | o in child :: o in front || o == last;
  }

  lemma {:induction false} DetailsMentioned(items: seq<Obligation>, code: string)
    ensures DetailsOf(items, code).Some? ==> Mentioned(items, code)
  {
    if items != [] {
      SplitLast(items, code);
      DetailsMentioned(items[..|items| - 1], code);
    }
  }

  lemma {:induction false} MergedIsCombined(parent: seq<Obligation>, child: seq<Obligation>, code: string)
    ensures MergedAt(parent, child, code) == Combined(LastWith(parent, code), child, code)
    decreases |child|
  {
    if child != [] {
      MergedIsCombined(parent, child[..|child| - 1], code);
      SplitLast(child, code);
      DetailsMentioned(child[..|child| - 1], code);
    }
  }

  /** The merged list: one entry per code, in code order, and each what the merge holds under its code. */
  ghost predicate IsMerge(r: seq<Obligation>, parent: seq<Obligation>, child: seq<Obligation>) {
    && (forall o :: o in r <==> MergedAt(parent, child, o.code) == Some(o))
    && (forall i, j | 0 <= i < j < |r| :: CodeLeq(r[i], r[j]) && r[i].code != r[j].code)
  }

  /** What is demanded under a code after a merge: what some child demands, or the parent's last entry under it. */
  lemma DemandedIff(r: seq<Obligation>, parent: seq<Obligation>, child: seq<Obligation>, code: string)
    requires IsMerge(r, parent, child)
    ensures Demanded(r, code) <==>
      Demanded(child, code) || (LastWith(parent, code).Some? && LastWith(parent, code).value.required)
  {
    MergedIsCombined(parent, child, code);
    var merged := MergedAt(parent, child, code);
    if merged.Some? {
      assert merged.value in r;
    }
    assert forall o | o in r && o.code == code :: merged == Some(o);
    assert Demanded(child, code) ==> Mentioned(child, code);
  }

  /** No demand of the parent can be lost, whatever the children, exactly when under each code it demands its own last
      entry is required. */
  lemma DemandsSurviveIff(parent: seq<Obligation>)
    ensures (forall r, child, code | IsMerge(r, parent, child) && Demanded(parent, code) :: Demanded(r, code))
       <==> (forall code | Demanded(parent, code) ::
               LastWith(parent, code).Some? && LastWith(parent, code).value.required)
  {
    forall r, child, code | IsMerge(r, parent, child) ensures Demanded(r, code) <==>
      Demanded(child, code) || (LastWith(parent, code).Some? && LastWith(parent, code).value.required)
    {
      DemandedIff(r, parent, child, code);
    }
    var plain := MergeExists(parent);
    assert forall code :: !Demanded([], code);
  }

  /** An instance: a required entry followed by an optional one under the same code. */
  lemma DemandDropped(r: seq<Obligation>)
    requires IsMerge(r, [Obligation("A", true, None), Obligation("A", false, None)], [])
    ensures Demanded([Obligation("A", true, None), Obligation("A", false, None)], "A") && !Demanded(r, "A")
  {
    var parent := [Obligation("A", true, None), Obligation("A", false, None)];
    assert parent[0] in parent;
    assert LastWith(parent, "A") == Some(parent[1]);
    DemandedIff(r, parent, [], "A");
  }

  lemma MergedHasCode(parent: seq<Obligation>, child: seq<Obligation>, code: string)
    ensures MergedAt(parent, child, code).Some? ==> MergedAt(parent, child, code).value.code == code
  {
    MergedIsCombined(parent, child, code);
  }

  lemma LastOfMerge(r: seq<Obligation>, parent: seq<Obligation>, child: seq<Obligation>, code: string)
    requires IsMerge(r, parent, child)
    ensures LastWith(r, code) == MergedAt(parent, child, code)
  {
    MergedHasCode(parent, child, code);
  }

  lemma CombinedTwice(base: Option<Obligation>, child: seq<Obligation>, code: string)
    ensures Combined(Combined(base, child, code), child, code) == Combined(base, child, code)
  {
  }

  /** Merging the same children in again changes nothing. */
  lemma MergeIdempotent(r: seq<Obligation>, parent: seq<Obligation>, child: seq<Obligation>, code: string)
    requires IsMerge(r, parent, child)
    ensures MergedAt(r, child, code) == MergedAt(parent, child, code)
  {
    LastOfMerge(r, parent, child, code);
    MergedIsCombined(r, child, code);
    MergedIsCombined(parent, child, code);
    CombinedTwice(LastWith(parent, code), child, code);
  }

  /** An insertion-ordered map from codes. */
  ghost predicate Holds(
    order: seq<string>, byCode: map<string, Obligation>, parent: seq<Obligation>, child: seq<Obligation>)
  {
    && Distinct(order)
    && (forall c :: c in order <==> c in byCode)
    && (forall c :: c in byCode <==> MergedAt(parent, child, c).Some?)
    && (forall c | c in byCode :: Some(byCode[c]) == MergedAt(parent, child, c))
  }

  function Listing(order: seq<string>, byCode: map<string, Obligation>): seq<Obligation>
    requires forall c | c in order :: c in byCode
  {
    seq(|order|, i requires 0 <= i < |order| => assert order[i] in order; byCode[order[i]])
  }

  /** Setting an entry keeps its place, or adds it at the end. */
  function Placed(order: seq<string>, byCode: map<string, Obligation>, code: string): seq<string> {
    if code in byCode then order else order + [code]
  }

  lemma HoldsParent(order: seq<string>, byCode: map<string, Obligation>, parent: seq<Obligation>, i: nat)
    requires i < |parent| && Holds(order, byCode, parent[..i], [])
    ensures var o := parent[i];
      Holds(Placed(order, byCode, o.code), byCode[o.code := o], parent[..i + 1], [])
  {
    var o := parent[i];
    assert parent[..i + 1][..i] == parent[..i];
    forall c ensures LastWith(parent[..i + 1], c) == if o.code == c then Some(o) else LastWith(parent[..i], c) {
    }
  }

  lemma HoldsChild(
    order: seq<string>, byCode: map<string, Obligation>, parent: seq<Obligation>, child: seq<Obligation>, i: nat)
    requires i < |child| && Holds(order, byCode, parent, child[..i])
    ensures var o := child[i];
      var existing := if o.code in byCode then Some(byCode[o.code]) else None;
      Holds(Placed(order, byCode, o.code), byCode[o.code := MergeOne(existing, o)], parent, child[..i + 1])
  {
    var o := child[i];
    assert child[..i + 1][..i] == child[..i];
    forall c ensures MergedAt(parent, child[..i + 1], c)
        == if o.code == c then Some(MergeOne(MergedAt(parent, child[..i], c), o)) else MergedAt(parent, child[..i], c) {
    }
  }

  lemma CodeOrder()
    ensures TotalPreorder(CodeLeq)
  {
    forall a, b ensures CodeLeq(a, b) || CodeLeq(b, a) {
      StrLeqTotal(a.code, b.code);
    }
    forall a, b, c | CodeLeq(a, b) && CodeLeq(b, c) ensures CodeLeq(a, c) {
      StrLeqTransitive(a.code, b.code, c.code);
    }
  }

  ghost predicate DistinctCodes(s: seq<Obligation>) {
    forall i, j | 0 <= i < j < |s| :: s[i].code != s[j].code
  }

  lemma SortKeepsCodes(s: seq<Obligation>)
    requires DistinctCodes(s)
    ensures DistinctCodes(Sort(s, CodeLeq))
  {
    var r := Sort(s, CodeLeq);
    CodeOrder();
    SortCorrect(s, CodeLeq);
    assert Distinct(s);
    DistinctPermutation(s, r);
    SortMembers(s, CodeLeq);
    forall i, j | 0 <= i < j < |r| ensures r[i].code != r[j].code {
      assert r[i] in s && r[j] in s;
      var x :| 0 <= x < |s| && s[x] == r[i];
      var y :| 0 <= y < |s| && s[y] == r[j];
      assert x != y;
      assert x < y || y < x;
    }
  }

  lemma SortedIsMerge(
    order: seq<string>, byCode: map<string, Obligation>, parent: seq<Obligation>, child: seq<Obligation>)
    requires Holds(order, byCode, parent, child)
    ensures IsMerge(Sort(Listing(order, byCode), CodeLeq), parent, child)
  {
    var all := Listing(order, byCode);
    var r := Sort(all, CodeLeq);
    forall i | 0 <= i < |order| ensures all[i].code == order[i] {
      assert order[i] in order;
      MergedHasCode(parent, child, order[i]);
    }
    assert DistinctCodes(all);
    CodeOrder();
    SortCorrect(all, CodeLeq);
    SortMembers(all, CodeLeq);
    SortKeepsCodes(all);
    forall o ensures o in r <==> MergedAt(parent, child, o.code) == Some(o) {
      if o in r {
        var i :| 0 <= i < |all| && all[i] == o;
        assert order[i] in order;
      }
      if MergedAt(parent, child, o.code) == Some(o) {
        assert o.code in order;
        var i :| 0 <= i < |order| && order[i] == o.code;
        assert all[i] == o;
      }
    }
  }

  lemma {:induction false} ParentHolds(parent: seq<Obligation>, n: nat)
    returns (order: seq<string>, byCode: map<string, Obligation>)
    requires n <= |parent|
    ensures Holds(order, byCode, parent[..n], [])
  {
    if n == 0 {
      order, byCode := [], map[];
    } else {
      var i := n - 1;
      var before, held := ParentHolds(parent, i);
      HoldsParent(before, held, parent, i);
      return Placed(before, held, parent[i].code), held[parent[i].code := parent[i]];
    }
  }

  lemma MergeExists(parent: seq<Obligation>) returns (r: seq<Obligation>)
    ensures IsMerge(r, parent, [])
  {
    var order, byCode := ParentHolds(parent, |parent|);
    assert parent[..|parent|] == parent;
    SortedIsMerge(order, byCode, parent, []);
    r := Sort(Listing(order, byCode), CodeLeq);
  }

  method MergeCapabilityObligations(parent: seq<Obligation>, child: seq<Obligation>) returns (r: seq<Obligation>)
    ensures IsMerge(r, parent, child)
  {
    var order: seq<string> := [];
    var byCode: map<string, Obligation> := map[];
    for i := 0 to |parent|
      invariant Holds(order, byCode, parent[..i], [])
    {
      HoldsParent(order, byCode, parent, i);
      order := Placed(order, byCode, parent[i].code);
      byCode := byCode[parent[i].code := parent[i]];
    }
    assert parent[..|parent|] == parent && child[..0] == [];
    for i := 0 to |child|
      invariant Holds(order, byCode, parent, child[..i])
    {
      var o := child[i];
      HoldsChild(order, byCode, parent, child, i);
      var existing := if o.code in byCode then Some(byCode[o.code]) else None;
      order := Placed(order, byCode, o.code);
      byCode := byCode[o.code := MergeOne(existing, o)];
    }
    assert child[..|child|] == child;
    SortedIsMerge(order, byCode, parent, child);
    r := Sort(Listing(order, byCode), CodeLeq);
  }
}
