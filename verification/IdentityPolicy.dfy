/** Delegation grants, and the identity policy decision built on them and on the trust chain. */
module IdentityPolicy {
  import opened Options
  import opened TrustChain
  import Sorting

  // ---------- delegation grants ----------

  datatype GrantFault =
    | GrantRevoked
    | GrantExpired
    | ActionNotAllowed
    | ScopeNotAllowed(missing: seq<string>)

  predicate PastAt(at: Option<Time>, now: Time) {
    at.Some? && at.value <= now
  }

  /** Neither revoked nor expired by `now`. */
  ghost predicate InForce(g: Grant, now: Time) {
    && (g.revokedAt.Some? ==> now < g.revokedAt.value)
    && (g.expiresAt.Some? ==> now < g.expiresAt.value)
  }

  ghost predicate Covers(grant: Grant, action: string, scopes: seq<string>) {
    action in grant.allowedActions && forall s | s in scopes :: s in grant.allowedScopes
  }

  function MissingScopes(scopes: seq<string>, allowed: seq<string>): seq<string> {
    if scopes == [] then []
    else (if scopes[0] in allowed then [] else [scopes[0]]) + MissingScopes(scopes[1..], allowed)
  }

  lemma {:induction false} MissingScopesEmpty(scopes: seq<string>, allowed: seq<string>)
    ensures forall s :: s in MissingScopes(scopes, allowed) <==> s in scopes && s !in allowed
    ensures MissingScopes(scopes, allowed) == [] <==> forall s | s in scopes :: s in allowed
  {
    if scopes != [] {
      MissingScopesEmpty(scopes[1..], allowed);
      assert scopes == [scopes[0]] + scopes[1..];
    }
  }

  /** The faults of a grant for a request; none exactly when it is in force and covers the request. */
  method ValidateDelegationGrant(grant: Grant, action: string, scopes: seq<string>, now: Time)
    returns (valid: bool, faults: seq<GrantFault>)
    ensures valid <==> InForce(grant, now) && Covers(grant, action, scopes)
    ensures valid <==> faults == []
    ensures GrantRevoked in faults <==> grant.revokedAt.Some? && grant.revokedAt.value <= now
    ensures GrantExpired in faults <==> grant.expiresAt.Some? && grant.expiresAt.value <= now
    ensures ActionNotAllowed in faults <==> action !in grant.allowedActions
    ensures (exists f :: f in faults && f.ScopeNotAllowed?) <==> exists s :: s in scopes && s !in grant.allowedScopes
    ensures forall f | f in faults && f.ScopeNotAllowed? ::
      forall s :: s in f.missing <==> s in scopes && s !in grant.allowedScopes
  {
    faults := [];
    if PastAt(grant.revokedAt, now) { faults := faults + [GrantRevoked]; }
    if PastAt(grant.expiresAt, now) { faults := faults + [GrantExpired]; }
    if action !in grant.allowedActions { faults := faults + [ActionNotAllowed]; }
    var missing := MissingScopes(scopes, grant.allowedScopes);
    MissingScopesEmpty(scopes, grant.allowedScopes);
    ghost var before := faults;
    if missing != [] {
      faults := faults + [ScopeNotAllowed(missing)];
      assert ScopeNotAllowed(missing) in faults;
      assert missing[0] in missing;
    }
    assert forall f | f in faults && f.ScopeNotAllowed? :: f.missing == missing && missing != [];
    valid := |faults| == 0;
  }

  // ---------- actors and requests ----------

  datatype ActorType = Human | Organization | Brand | App | AiAgent | Delegate | System

  datatype AiRestrictions = AiRestrictions(
    disallowAutonomousDelegation: bool,
    requireHumanEscalationForActions: seq<string>,
    blockedScopes: seq<string>)

  datatype Actor = Actor(
    actorId: string,
    actorType: ActorType,
    active: bool,
    maxDelegationDepth: int,
    blockedActions: seq<string>,
    restrictedScopes: seq<string>,
    aiRestrictions: AiRestrictions,
    requireHumanReview: bool)

  datatype Context = Context(
    actor: Actor,
    rootActor: Option<Actor>,
    delegateActor: Option<Actor>,
    grants: seq<Grant>,
    action: string,
    scopes: seq<string>,
    trustChain: Option<Chain>)

  datatype DenyReason =
    | ActorInactive
    | ActorActionBlocked
    | ActorScopeRestricted
    | NoActiveDelegation
    | DelegationScopeNotAllowed
    | DelegationActionNotAllowed
    | TrustChainInvalid
    | MaxDepthExceeded
    | AiScopeBlocked

  datatype Obligation = AiEscalationRequired | HumanReviewRequired

  datatype Flags = Flags(
    requiresHumanReview: bool,
    autonomousDelegationBlocked: bool,
    sensitiveActionEscalationRequired: bool,
    blockedByAiScopeRestriction: bool)

  /** What a decision repeats of a supplied chain. */
  datatype ChainSummary = ChainSummary(
    rootActorId: string,
    delegatedActors: seq<string>,
    depth: nat,
    valid: bool,
    reasons: seq<Reason>)

  datatype Decision = Decision(
    allow: bool,
    reasons: seq<DenyReason>,
    obligations: seq<Obligation>,
    trustChainSummary: Option<ChainSummary>,
    grantIds: seq<string>,
    flags: Flags)

  predicate Overlap(a: seq<string>, b: seq<string>) {
    exists s | s in a :: s in b
  }

  function Min(a: int, b: int): int {
    if a <= b then a else b
  }

  // ---------- the direct grant ----------

  /** A grant from the one actor to the other, in force. */
  ghost predicate Direct(g: Grant, root: string, delegate: string, now: Time) {
    g.delegator == root && g.delegate == delegate && InForce(g, now)
  }

  predicate ActiveDirect(g: Grant, root: string, delegate: string, now: Time) {
    g.delegator == root && g.delegate == delegate && !PastAt(g.revokedAt, now) && !PastAt(g.expiresAt, now)
  }

  /** The position of the first grant from `root` to `delegate` in force at `now`, if any. */
  function FirstActive(grants: seq<Grant>, root: string, delegate: string, now: Time): (r: Option<nat>)
    ensures r.Some? ==> r.value < |grants| && Direct(grants[r.value], root, delegate, now)
    ensures forall i | 0 <= i < (if r.Some? then r.value else |grants|) :: !Direct(grants[i], root, delegate, now)
  {
    if grants == [] then None
    else if ActiveDirect(grants[0], root, delegate, now) then Some(0)
    else
      var rest := FirstActive(grants[1..], root, delegate, now);
      assert forall i | 0 < i < |grants| :: grants[i] == grants[1..][i - 1];
      if rest.Some? then Some(rest.value + 1) else None
  }

  function FindDelegationGrant(c: Context, now: Time): (r: Option<nat>)
    ensures r.Some? ==> c.rootActor.Some? && c.delegateActor.Some? && r.value < |c.grants|
    ensures c.rootActor.Some? && c.delegateActor.Some? ==>
      forall i | 0 <= i < |c.grants| ::
        Direct(c.grants[i], c.rootActor.value.actorId, c.delegateActor.value.actorId, now) ==> r.Some? && r.value <= i
    ensures r.Some? ==>
      Direct(c.grants[r.value], c.rootActor.value.actorId, c.delegateActor.value.actorId, now)
  {
    if c.rootActor.None? || c.delegateActor.None? then None
    else FirstActive(c.grants, c.rootActor.value.actorId, c.delegateActor.value.actorId, now)
  }

  // ---------- what the policy permits, stated without running it ----------

  ghost predicate AiPermits(ai: Actor, c: Context) {
    ai.actorType.AiAgent? ==>
      && !(ai.aiRestrictions.disallowAutonomousDelegation && c.delegateActor.Some? && c.actor.actorType.AiAgent?)
      && forall s | s in c.scopes :: s !in ai.aiRestrictions.blockedScopes
  }

  /** A supplied chain must hold together within the depth limit; without one, root and delegate
      must differ and the limit admit one step. */
  ghost predicate ChainPermits(root: Actor, delegate: Actor, supplied: Option<Chain>) {
    match supplied
    case Some(chain) =>
      && chain.valid && !Broken(chain.trustPath) && 0 < |chain.trustPath|
      && |chain.trustPath| <= root.maxDelegationDepth && |chain.trustPath| <= delegate.maxDelegationDepth
    case None =>
      root.actorId != delegate.actorId && root.maxDelegationDepth >= 1 && delegate.maxDelegationDepth >= 1
  }

  ghost predicate DelegationPermits(c: Context, now: Time)
    requires c.delegateActor.Some?
  {
    var found := FindDelegationGrant(c, now);
    && c.delegateActor.value.active
    && found.Some?
    && Covers(c.grants[found.value], c.action, c.scopes)
    && ChainPermits(c.rootActor.value, c.delegateActor.value, c.trustChain)
  }

  ghost predicate Permits(c: Context, now: Time) {
    && c.actor.active
    && c.action !in c.actor.blockedActions
    && (forall s | s in c.scopes :: s !in c.actor.restrictedScopes)
    && c.actor.maxDelegationDepth >= 0
    && (c.delegateActor.Some? ==> DelegationPermits(c, now))
    && AiPermits(c.actor, c)
    && (c.delegateActor.Some? ==> AiPermits(c.delegateActor.value, c))
  }

  /** The built chain passes validation exactly when the chain condition without a supplied chain holds,
      given that some direct grant (in force or not) leads from root to delegate. */
  lemma BuiltChainCheck(c: Context, root: Actor, delegate: Actor, g: nat, chain: Chain, route: Route)
    requires g < |c.grants| && c.grants[g].delegator == root.actorId && c.grants[g].delegate == delegate.actorId
    requires chain.valid <==> Reachable(c.grants, root.actorId, delegate.actorId)
    requires chain.valid ==>
      && IsLeastRoute(c.grants, root.actorId, delegate.actorId, route)
      && InRange(c.grants, route) && chain.trustPath == Links(c.grants, route)
    ensures chain.valid && |chain.trustPath| == (if root.actorId == delegate.actorId then 0 else 1)
    ensures !Broken(chain.trustPath)
  {
    assert IsRoute(c.grants, root.actorId, root.actorId, []);
    ExtendRoute(c.grants, root.actorId, [], g);
    assert chain.valid;
    if root.actorId == delegate.actorId {
      assert RouteLeq(route, []);
    } else {
      DirectGrantIsLeast(c.grants, root.actorId, delegate.actorId, g, route);
    }
  }

  // ---------- which reasons a denial must list ----------

  function DepthLimit(root: Actor, delegate: Actor): int {
    Min(root.maxDelegationDepth, delegate.maxDelegationDepth)
  }

  /** The chain examined, supplied or searched for, is unusable. */
  ghost predicate ChainFails(c: Context, root: Actor, delegate: Actor) {
    match c.trustChain
    case Some(chain) =>
      !(chain.valid && 0 < |chain.trustPath| <= DepthLimit(root, delegate) && !Broken(chain.trustPath))
    case None =>
      !exists p ::
        IsLeastRoute(c.grants, root.actorId, delegate.actorId, p) && 0 < |p| <= DepthLimit(root, delegate)
  }

  /** The chain examined is longer than the limit; an unreachable delegate counts as length zero. */
  ghost predicate ChainTooLong(c: Context, root: Actor, delegate: Actor) {
    match c.trustChain
    case Some(chain) => |chain.trustPath| > DepthLimit(root, delegate)
    case None =>
      || (exists p :: IsLeastRoute(c.grants, root.actorId, delegate.actorId, p) && |p| > DepthLimit(root, delegate))
      || (!Reachable(c.grants, root.actorId, delegate.actorId) && DepthLimit(root, delegate) < 0)
  }

  ghost predicate DelegationReason(r: DenyReason, c: Context, now: Time)
    requires c.delegateActor.Some?
  {
    var found := FindDelegationGrant(c, now);
    match r
    case ActorInactive => !c.delegateActor.value.active
    case NoActiveDelegation => found.None?
    case DelegationScopeNotAllowed =>
      found.Some? && exists s :: s in c.scopes && s !in c.grants[found.value].allowedScopes
    case DelegationActionNotAllowed => found.Some? && c.action !in c.grants[found.value].allowedActions
    case TrustChainInvalid => c.rootActor.Some? && ChainFails(c, c.rootActor.value, c.delegateActor.value)
    case MaxDepthExceeded =>
      && c.rootActor.Some?
      && ChainFails(c, c.rootActor.value, c.delegateActor.value)
      && ChainTooLong(c, c.rootActor.value, c.delegateActor.value)
    case _ => false
  }

  ghost predicate AiReason(r: DenyReason, ai: Actor, c: Context) {
    && ai.actorType.AiAgent?
    && match r
       case NoActiveDelegation =>
         ai.aiRestrictions.disallowAutonomousDelegation && c.delegateActor.Some? && c.actor.actorType.AiAgent?
       case AiScopeBlocked => exists s :: s in c.scopes && s in ai.aiRestrictions.blockedScopes
       case _ => false
  }

  ghost predicate ActorReason(r: DenyReason, c: Context) {
    match r
    case ActorInactive => !c.actor.active
    case ActorActionBlocked => c.action in c.actor.blockedActions
    case ActorScopeRestricted => exists s :: s in c.scopes && s in c.actor.restrictedScopes
    case MaxDepthExceeded => c.actor.maxDelegationDepth < 0
    case _ => false
  }

  ghost predicate Applies(r: DenyReason, c: Context, now: Time) {
    || ActorReason(r, c)
    || AiReason(r, c.actor, c)
    || (c.delegateActor.Some? && (DelegationReason(r, c, now) || AiReason(r, c.delegateActor.value, c)))
  }

  // ---------- the evaluation, step by step ----------

  method CheckDelegation(c: Context, now: Time) returns (reasons: seq<DenyReason>, grantIds: seq<string>)
    requires c.delegateActor.Some?
    ensures reasons == [] <==> DelegationPermits(c, now)
    ensures forall r :: r in reasons <==> DelegationReason(r, c, now)
    ensures var found := FindDelegationGrant(c, now);
      grantIds == if found.Some? then [c.grants[found.value].grantId] else []
  {
    reasons, grantIds := [], [];
    var delegate := c.delegateActor.value;
    if !delegate.active { reasons := reasons + [ActorInactive]; }
    var found := FindDelegationGrant(c, now);
    if found.None? {
      reasons := reasons + [NoActiveDelegation];
    } else {
      var grant := c.grants[found.value];
      grantIds := grantIds + [grant.grantId];
      var valid, faults := ValidateDelegationGrant(grant, c.action, c.scopes, now);
      if !valid {
        if exists f | f in faults :: f.ScopeNotAllowed? { reasons := reasons + [DelegationScopeNotAllowed]; }
        if ActionNotAllowed in faults { reasons := reasons + [DelegationActionNotAllowed]; }
        if GrantExpired in faults || GrantRevoked in faults { reasons := reasons + [NoActiveDelegation]; }
      }
    }
    ghost var grantOk := found.Some? && Covers(c.grants[found.value], c.action, c.scopes);
    assert reasons == [] <==> delegate.active && grantOk;
    if c.rootActor.Some? {
      var root := c.rootActor.value;
      var faults := CheckChain(c, root, delegate, now);
      assert grantOk ==> (faults == [] <==> ChainPermits(root, delegate, c.trustChain));
      reasons := reasons + faults;
    }
  }

  method CheckChain(c: Context, root: Actor, delegate: Actor, now: Time) returns (reasons: seq<DenyReason>)
    ensures forall r :: r in reasons <==>
      && ChainFails(c, root, delegate)
      && (r.TrustChainInvalid? || (r.MaxDepthExceeded? && ChainTooLong(c, root, delegate)))
    ensures c.trustChain.Some? ==> (reasons == [] <==> ChainPermits(root, delegate, c.trustChain))
    ensures FirstActive(c.grants, root.actorId, delegate.actorId, now).Some? ==>
      (reasons == [] <==> ChainPermits(root, delegate, c.trustChain))
  {
    reasons := [];
    var chain: Chain;
    ghost var route: Route := [];
    if c.trustChain.Some? {
      chain := c.trustChain.value;
    } else {
      ghost var dequeues;
      chain, route, dequeues := BuildTrustChain(root.actorId, delegate.actorId, c.grants, now);
    }
    var maxDepth := DepthLimit(root, delegate);
    var valid, faults := ValidateTrustChain(chain, maxDepth);
    ghost var a, b := root.actorId, delegate.actorId;
    if c.trustChain.None? {
      assert forall p | IsLeastRoute(c.grants, a, b, p) :: IsRoute(c.grants, a, b, p) && |p| == |route|;
      if chain.valid {
        RouteNeverBroken(c.grants, a, b, route);
        assert IsLeastRoute(c.grants, a, b, route);
      }
    }
    assert valid <==> !ChainFails(c, root, delegate);
    assert |chain.trustPath| > maxDepth <==> ChainTooLong(c, root, delegate);
    if !valid {
      reasons := reasons + [TrustChainInvalid];
      if MaxDelegationDepthExceeded in faults { reasons := reasons + [MaxDepthExceeded]; }
    }
    ghost var found := FirstActive(c.grants, root.actorId, delegate.actorId, now);
    if c.trustChain.None? && found.Some? {
      BuiltChainCheck(c, root, delegate, found.value, chain, route);
    }
  }

  /** One AI actor's restrictions, appended to what was found so far. */
  method CheckAiActor(ai: Actor, c: Context, reasons: seq<DenyReason>, obligations: seq<Obligation>, flags: Flags)
    returns (reasons': seq<DenyReason>, obligations': seq<Obligation>, flags': Flags)
    requires ai.actorType.AiAgent?
    ensures reasons' == [] <==> reasons == [] && AiPermits(ai, c)
    ensures forall r :: r in reasons' <==> r in reasons || AiReason(r, ai, c)
    ensures flags'.requiresHumanReview == (flags.requiresHumanReview || ai.requireHumanReview)
    ensures flags'.sensitiveActionEscalationRequired ==
      (flags.sensitiveActionEscalationRequired || c.action in ai.aiRestrictions.requireHumanEscalationForActions)
    ensures flags'.blockedByAiScopeRestriction ==
      (flags.blockedByAiScopeRestriction || Overlap(c.scopes, ai.aiRestrictions.blockedScopes))
    ensures flags'.autonomousDelegationBlocked == (flags.autonomousDelegationBlocked
      || (ai.aiRestrictions.disallowAutonomousDelegation && c.delegateActor.Some? && c.actor.actorType.AiAgent?))
    ensures HumanReviewRequired in obligations' <==> HumanReviewRequired in obligations || ai.requireHumanReview
    ensures AiEscalationRequired in obligations' <==>
      AiEscalationRequired in obligations || c.action in ai.aiRestrictions.requireHumanEscalationForActions
  {
    reasons', obligations', flags' := reasons, obligations, flags;
    var policy := ai.aiRestrictions;
    if policy.disallowAutonomousDelegation && c.delegateActor.Some? && c.actor.actorType.AiAgent? {
      flags' := flags'.(autonomousDelegationBlocked := true);
      reasons' := reasons' + [NoActiveDelegation];
    }
    if Overlap(c.scopes, policy.blockedScopes) {
      flags' := flags'.(blockedByAiScopeRestriction := true);
      reasons' := reasons' + [AiScopeBlocked];
    }
    if c.action in policy.requireHumanEscalationForActions {
      flags' := flags'.(sensitiveActionEscalationRequired := true);
      obligations' := obligations' + [AiEscalationRequired];
    }
    if ai.requireHumanReview {
      flags' := flags'.(requiresHumanReview := true);
      obligations' := obligations' + [HumanReviewRequired];
    }
  }

  ghost predicate ReviewNeeded(c: Context) {
    || (c.actor.actorType.AiAgent? && c.actor.requireHumanReview)
    || (c.delegateActor.Some? && c.delegateActor.value.actorType.AiAgent? && c.delegateActor.value.requireHumanReview)
  }

  ghost predicate EscalationNeeded(c: Context) {
    || (c.actor.actorType.AiAgent? && c.action in c.actor.aiRestrictions.requireHumanEscalationForActions)
    || (c.delegateActor.Some? && c.delegateActor.value.actorType.AiAgent?
        && c.action in c.delegateActor.value.aiRestrictions.requireHumanEscalationForActions)
  }

  ghost predicate AutonomyBlocked(c: Context) {
    && c.delegateActor.Some? && c.actor.actorType.AiAgent?
    && (c.actor.aiRestrictions.disallowAutonomousDelegation
        || (c.delegateActor.value.actorType.AiAgent?
            && c.delegateActor.value.aiRestrictions.disallowAutonomousDelegation))
  }

  ghost predicate AiScopeRestricted(c: Context) {
    || (c.actor.actorType.AiAgent? && Overlap(c.scopes, c.actor.aiRestrictions.blockedScopes))
    || (c.delegateActor.Some? && c.delegateActor.value.actorType.AiAgent?
        && Overlap(c.scopes, c.delegateActor.value.aiRestrictions.blockedScopes))
  }

  ghost predicate FlagsTell(flags: Flags, c: Context) {
    && (flags.requiresHumanReview <==> ReviewNeeded(c))
    && (flags.sensitiveActionEscalationRequired <==> EscalationNeeded(c))
    && (flags.autonomousDelegationBlocked <==> AutonomyBlocked(c))
    && (flags.blockedByAiScopeRestriction <==> AiScopeRestricted(c))
  }

  method CheckAiActors(c: Context, reasons: seq<DenyReason>)
    returns (reasons': seq<DenyReason>, obligations: seq<Obligation>, flags: Flags)
    ensures reasons' == [] <==>
      && reasons == [] && AiPermits(c.actor, c)
      && (c.delegateActor.Some? ==> AiPermits(c.delegateActor.value, c))
    ensures forall r :: r in reasons' <==>
      || r in reasons
      || AiReason(r, c.actor, c)
      || (c.delegateActor.Some? && AiReason(r, c.delegateActor.value, c))
    ensures FlagsTell(flags, c)
    ensures HumanReviewRequired in obligations <==> ReviewNeeded(c)
    ensures AiEscalationRequired in obligations <==> EscalationNeeded(c)
  {
    reasons', obligations, flags := reasons, [], Flags(false, false, false, false);
    if c.actor.actorType.AiAgent? {
      reasons', obligations, flags := CheckAiActor(c.actor, c, reasons', obligations, flags);
    }
    if c.delegateActor.Some? && c.delegateActor.value.actorType.AiAgent? {
      reasons', obligations, flags := CheckAiActor(c.delegateActor.value, c, reasons', obligations, flags);
    }
  }

  method EvaluateIdentityPolicy(c: Context, now: Time) returns (d: Decision)
    ensures d.allow <==> Permits(c, now)
    ensures d.allow <==> d.reasons == []
    ensures forall r :: r in d.reasons <==> Applies(r, c, now)
    ensures Sorting.Distinct(d.reasons) && Sorting.Distinct(d.obligations)
    ensures FlagsTell(d.flags, c)
    ensures match c.trustChain
      case None => d.trustChainSummary == None
      case Some(chain) => d.trustChainSummary == Some(ChainSummary(
        chain.rootActorId, chain.delegatedActors, |chain.trustPath|, chain.valid, chain.reasons))
    ensures HumanReviewRequired in d.obligations <==> ReviewNeeded(c)
    ensures AiEscalationRequired in d.obligations <==> EscalationNeeded(c)
    ensures c.delegateActor.Some? && FindDelegationGrant(c, now).Some? ==>
      d.grantIds == [c.grants[FindDelegationGrant(c, now).value].grantId]
    ensures c.delegateActor.None? || FindDelegationGrant(c, now).None? ==> d.grantIds == []
  {
    var reasons: seq<DenyReason>, grantIds: seq<string> := [], [];
    if !c.actor.active { reasons := reasons + [ActorInactive]; }
    if c.action in c.actor.blockedActions { reasons := reasons + [ActorActionBlocked]; }
    if Overlap(c.scopes, c.actor.restrictedScopes) { reasons := reasons + [ActorScopeRestricted]; }
    if c.delegateActor.Some? {
      var more, ids := CheckDelegation(c, now);
      reasons, grantIds := reasons + more, ids;
    }
    if c.actor.maxDelegationDepth < 0 { reasons := reasons + [MaxDepthExceeded]; }
    assert forall r :: r in reasons <==>
      ActorReason(r, c) || (c.delegateActor.Some? && DelegationReason(r, c, now));
    var all, obligations, flags := CheckAiActors(c, reasons);
    Sorting.DedupeCorrect(all);
    Sorting.DedupeCorrect(obligations);
    var summary := None;
    if c.trustChain.Some? {
      var chain := c.trustChain.value;
      summary := Some(ChainSummary(
        chain.rootActorId, chain.delegatedActors, |chain.trustPath|, chain.valid, chain.reasons));
    }
    d := Decision(|all| == 0, Sorting.Dedupe(all), Sorting.Dedupe(obligations), summary, grantIds, flags);
  }

  /** An allowed delegated request rests on one direct grant in force that covers it, whatever longer
      or lapsed grants are supplied beside it. */
  lemma AllowedDelegationIsDirect(c: Context, now: Time)
    requires Permits(c, now) && c.delegateActor.Some? && c.trustChain.None?
    ensures c.rootActor.Some?
    ensures c.rootActor.value.actorId != c.delegateActor.value.actorId
    ensures c.rootActor.value.maxDelegationDepth >= 1 && c.delegateActor.value.maxDelegationDepth >= 1
    ensures exists g | 0 <= g < |c.grants| ::
      && Direct(c.grants[g], c.rootActor.value.actorId, c.delegateActor.value.actorId, now)
      && Covers(c.grants[g], c.action, c.scopes)
    ensures forall p | IsLeastRoute(c.grants, c.rootActor.value.actorId, c.delegateActor.value.actorId, p) :: |p| == 1
  {
    var root, delegate := c.rootActor.value.actorId, c.delegateActor.value.actorId;
    var g := FindDelegationGrant(c, now).value;
    forall p | IsLeastRoute(c.grants, root, delegate, p) ensures |p| == 1 {
      DirectGrantIsLeast(c.grants, root, delegate, g, p);
    }
  }

  lemma {:induction false} FirstActiveStays(
    grants: seq<Grant>, more: seq<Grant>, root: string, delegate: string, now: Time)
    requires FirstActive(grants, root, delegate, now).Some?
    ensures FirstActive(grants + more, root, delegate, now) == FirstActive(grants, root, delegate, now)
  {
    var i := FirstActive(grants, root, delegate, now).value;
    assert forall k | 0 <= k <= i :: (grants + more)[k] == grants[k];
  }

  /** Once a direct grant is in force, it alone decides: no grant supplied after it, however broad, changes whether
      the request is permitted. */
  lemma FirstGrantDecides(c: Context, more: seq<Grant>, now: Time)
    requires FindDelegationGrant(c, now).Some?
    ensures Permits(c.(grants := c.grants + more), now) <==> Permits(c, now)
    ensures Permits(c, now) ==> Covers(c.grants[FindDelegationGrant(c, now).value], c.action, c.scopes)
  {
    FirstActiveStays(c.grants, more, c.rootActor.value.actorId, c.delegateActor.value.actorId, now);
  }
}
