/** What delegation, attenuation and use of a runtime capability come to, written out. */
module CapabilityUse {
  import opened Options
  import opened Text
  import opened Values
  import opened RuntimeCapabilities

  // ---------- delegation and attenuation ----------

  /** Begins with one of the prefixes. */
  ghost predicate Extends(s: string, prefixes: seq<string>) {
    exists p :: p in prefixes && p <= s
  }

  lemma CoveredExtends(s: string, prefixes: seq<string>)
    ensures CoveredBy(s, prefixes) <==> Extends(s, prefixes)
  {
  }

  /** Both expiry texts are there, and the child's orders after the parent's. */
  ghost predicate LaterText(parent: Option<string>, child: Option<string>) {
    && parent.Some? && parent.value != "" && child.Some? && child.value != ""
    && !StrLeq(child.value, parent.value)
  }

  /** Which issue is raised for what. */
  ghost predicate Raised(issue: Issue, parent: RuntimeCapability, child: RuntimeCapability) {
    match issue
    case SubjectMismatch => child.subjectActorId != parent.subjectActorId
    case GranteeMismatch => child.granteeActorId != parent.granteeActorId
    case LifetimeEscalation => LaterText(parent.expiresAt, child.expiresAt)
    case ActionEscalation => !(forall a | a in child.allowedActions :: a in parent.allowedActions)
    case ScopeEscalation => !(forall s | s in child.scope :: Extends(s, parent.scope))
  }

  /** The place of an issue among the checks. */
  ghost function Place(issue: Issue): nat {
    match issue
    case SubjectMismatch => 0
    case GranteeMismatch => 1
    case LifetimeEscalation => 2
    case ActionEscalation => 3
    case ScopeEscalation => 4
  }

  ghost predicate InPlaces(issues: seq<Issue>, n: nat) {
    && (forall i | 0 <= i < |issues| :: Place(issues[i]) < n)
    && forall i, j | 0 <= i < j < |issues| :: Place(issues[i]) < Place(issues[j])
  }

  lemma RaisedIsIssue(issue: Issue, parent: RuntimeCapability, child: RuntimeCapability)
    ensures HasIssue(issue, parent, child) <==> Raised(issue, parent, child)
  {
    forall s ensures CoveredBy(s, parent.scope) <==> Extends(s, parent.scope) {
      CoveredExtends(s, parent.scope);
    }
  }

  lemma WithInPlaces(issues: seq<Issue>, issue: Issue, parent: RuntimeCapability, child: RuntimeCapability)
    requires InPlaces(issues, Place(issue))
    ensures InPlaces(With(issues, issue, parent, child), Place(issue) + 1)
  {
  }

  /** The issues of a delegation: each that applies, once, in the order of the checks. */
  lemma IssuesTell(parent: RuntimeCapability, child: RuntimeCapability)
    ensures forall issue :: issue in Issues(parent, child) <==> Raised(issue, parent, child)
    ensures InPlaces(Issues(parent, child), 5)
  {
    forall issue ensures issue in Issues(parent, child) <==> Raised(issue, parent, child) {
      IssuesExactly(parent, child, issue);
      RaisedIsIssue(issue, parent, child);
    }
    var s1 := With([], SubjectMismatch, parent, child);
    var s2 := With(s1, GranteeMismatch, parent, child);
    var s3 := With(s2, LifetimeEscalation, parent, child);
    var s4 := With(s3, ActionEscalation, parent, child);
    WithInPlaces([], SubjectMismatch, parent, child);
    WithInPlaces(s1, GranteeMismatch, parent, child);
    WithInPlaces(s2, LifetimeEscalation, parent, child);
    WithInPlaces(s3, ActionEscalation, parent, child);
    WithInPlaces(s4, ScopeEscalation, parent, child);
  }

  /** What attenuation grants: what the patch asks for, and the parent's where it asks for nothing, if no issue of
      lifetime, actions or scope is raised; the rest is the parent's always. */
  lemma AttenuationTells(parent: RuntimeCapability, patch: Patch)
    ensures match AttenuateCapability(parent, patch)
      case Ok(child) =>
        && child.allowedActions ==
             (if patch.allowedActions.Some? then patch.allowedActions.value else parent.allowedActions)
        && child.scope == (if patch.scope.Some? then patch.scope.value else parent.scope)
        && child.expiresAt == (if patch.expiresAt.Some? then patch.expiresAt else parent.expiresAt)
        && child.notBefore == (if patch.notBefore.Some? then patch.notBefore else parent.notBefore)
        && child == parent.(allowedActions := child.allowedActions, scope := child.scope,
                            expiresAt := child.expiresAt, notBefore := child.notBefore)
        && !LaterText(parent.expiresAt, child.expiresAt)
        && (forall a | a in child.allowedActions :: a in parent.allowedActions)
        && (forall s | s in child.scope :: Extends(s, parent.scope))
      case Err(issues) =>
        && issues != []
        && forall issue :: issue in issues <==>
             || (issue == LifetimeEscalation && LaterText(parent.expiresAt, OrOpt(patch.expiresAt, parent.expiresAt)))
             || (issue == ActionEscalation && patch.allowedActions.Some?
                 && !(forall a | a in patch.allowedActions.value :: a in parent.allowedActions))
             || (issue == ScopeEscalation && patch.scope.Some?
                 && !(forall s | s in patch.scope.value :: Extends(s, parent.scope)))
  {
    var child := Patched(parent, patch);
    IssuesTell(parent, child);
    assert forall s | s in parent.scope :: Extends(s, parent.scope);
    if Issues(parent, child) != [] {
      assert Issues(parent, child)[0] in Issues(parent, child);
    }
  }

  // ---------- use ----------

  /** Active, not revoked, not before a start that can be read, and not after an end that can be read. */
  ghost predicate Live(c: RuntimeCapability, now: int, parse: DateParse) {
    && c.status == Active && c.revokedAt == None
    && (c.notBefore.Some? && parse(c.notBefore.value).Some? ==> parse(c.notBefore.value).value <= now)
    && (c.expiresAt.Some? && parse(c.expiresAt.value).Some? ==> now <= parse(c.expiresAt.value).value)
  }

  ghost predicate Fits(c: RuntimeCapability, s: Session) {
    s.actorId == c.granteeActorId && s.action in c.allowedActions && Extends(s.resourceId, c.scope)
  }

  /** What the boundary of an AI agent objects to, first of all things first. */
  ghost predicate Objects(b: AiBoundary, s: Session, reason: Reason) {
    var blocked := b.blockedScopes.Some? && Extends(s.resourceId, b.blockedScopes.value);
    var strange := b.allowedPurposes.Some? && s.purpose.Some? && s.purpose.value != ""
      && s.purpose.value !in b.allowedPurposes.value;
    var spent := b.maxAutonomousUses.Some?
      && (if b.autonomousUseCount.Some? then b.autonomousUseCount.value else 0) >= b.maxAutonomousUses.value;
    match reason
    case AiBlockedScope => blocked
    case AiPurposeNotAllowed => !blocked && strange
    case AiMaxAutonomousUsesExceeded => !blocked && !strange && spent
    case AiHumanReviewRequired => !blocked && !strange && !spent && b.requiresHumanReview
    case _ => false
  }

  lemma ObjectionTells(b: AiBoundary, s: Session)
    ensures match AiDenial(b, s)
      case None => forall reason :: !Objects(b, s, reason)
      case Some(Allow) => false
      case Some(Deny(reason, review)) =>
        Objects(b, s, reason) && (review <==> reason == AiMaxAutonomousUsesExceeded || reason == AiHumanReviewRequired)
  {
    if b.blockedScopes.Some? {
      CoveredExtends(s.resourceId, b.blockedScopes.value);
    }
  }

  /** The decision on a use: allowed exactly for a live capability, its grantee, an action and a resource of it, and
      nothing for an AI boundary to object to; denied otherwise for the first of these that fails. */
  lemma UseTells(c: RuntimeCapability, s: Session, now: int, parse: DateParse)
    ensures match EvaluateCapabilityUse(c, s, now, parse)
      case Allow =>
        && Live(c, now, parse) && Fits(c, s)
        && (c.aiBoundary.Some? ==> forall reason :: !Objects(c.aiBoundary.value, s, reason))
      case Deny(reason, review) =>
        && (review <==> reason == AiMaxAutonomousUsesExceeded || reason == AiHumanReviewRequired)
        && match reason
           case CapabilityNotValid => !Live(c, now, parse)
           case ActorNotGrantee => Live(c, now, parse) && s.actorId != c.granteeActorId
           case ActionNotAllowed =>
             Live(c, now, parse) && s.actorId == c.granteeActorId && s.action !in c.allowedActions
           case ResourceOutOfScope =>
             && Live(c, now, parse) && s.actorId == c.granteeActorId && s.action in c.allowedActions
             && !Extends(s.resourceId, c.scope)
           case _ => Live(c, now, parse) && Fits(c, s) && c.aiBoundary.Some? && Objects(c.aiBoundary.value, s, reason)
  {
    CoveredExtends(s.resourceId, c.scope);
    if c.aiBoundary.Some? {
      ObjectionTells(c.aiBoundary.value, s);
    }
  }
}
