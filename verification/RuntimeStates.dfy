/** What a relationship's state says of the events folded into it, read off the events themselves. */
module RuntimeStates {
  import opened Sorting
  import opened Orchestrator

  /** Where every relationship starts. */
  lemma DefaultTells(tenant: string, relationship: string)
    ensures var s := DefaultState(tenant, relationship);
      && s.tenant == tenant && s.relationship == relationship && s.lifecycle == Proposed && s.capabilities == []
      && s.trustScore == 50 && s.resilienceScore == 50 && s.revocationReadiness == 0
      && s.health == Stable && s.exposure == NoExposure && s.lastEventSequence == 0
  {
  }

  /** The nearest score from none to a hundred. */
  ghost predicate Nearest(score: int, wanted: int) {
    && 0 <= score <= 100
    && (0 <= wanted <= 100 ==> score == wanted) && (wanted < 0 ==> score == 0) && (100 < wanted ==> score == 100)
  }

  /** Half a delta, rounded down. */
  ghost predicate Half(half: int, delta: int) {
    2 * half <= delta < 2 * half + 2
  }

  /** One event: the sequence number moves on, and of the rest only what the event's kind is about. */
  lemma ReduceTells(s: RuntimeState, e: Event)
    ensures var t := Reduce(s, e);
      && t.tenant == s.tenant && t.relationship == s.relationship && t.lastEventSequence == e.sequence
      && (e.kind.TrustChanged? ==>
            && Nearest(t.trustScore, s.trustScore + e.kind.delta) && HealthFits(t)
            && exists half :: Half(half, e.kind.delta) && Nearest(t.resilienceScore, s.resilienceScore + half))
      && (!e.kind.TrustChanged? ==>
            t.trustScore == s.trustScore && t.health == s.health && t.resilienceScore == s.resilienceScore)
      && t.lifecycle == (match e.kind
                         case Created => Active
                         case LifecycleChanged(to) => to
                         case _ => s.lifecycle)
      && t.exposure == (match e.kind
                        case CapabilityDelegated(_) => Limited
                        case AiAttested => Extended
                        case _ => s.exposure)
  {
    if e.kind.TrustChanged? {
      assert Half(e.kind.delta / 2, e.kind.delta);
    }
  }

  lemma FoldSplits(s: RuntimeState, events: seq<Event>)
    requires events != []
    ensures var front, last := events[..|events| - 1], events[|events| - 1];
      Fold(s, events) == Reduce(Fold(s, front), last)
  {
    assert events == events[..|events| - 1] + [events[|events| - 1]];
    FoldSnoc(s, events[..|events| - 1], events[|events| - 1]);
  }

  ghost predicate SetsLifecycle(e: Event) {
    e.kind.Created? || e.kind.LifecycleChanged?
  }

  /** The lifecycle is the one that the last event about it asked for. */
  lemma {:induction false} LifecycleTells(s: RuntimeState, events: seq<Event>, i: nat)
    requires i < |events| && SetsLifecycle(events[i]) && forall j | i < j < |events| :: !SetsLifecycle(events[j])
    ensures Fold(s, events).lifecycle == if events[i].kind.Created? then Active else events[i].kind.to
  {
    var front := events[..|events| - 1];
    FoldSplits(s, events);
    ReduceTells(Fold(s, front), events[|events| - 1]);
    if i < |events| - 1 {
      LifecycleTells(s, front, i);
    }
  }

  /** And without such an event it is as it was. */
  lemma {:induction false} LifecycleStays(s: RuntimeState, events: seq<Event>)
    requires forall j | 0 <= j < |events| :: !SetsLifecycle(events[j])
    ensures Fold(s, events).lifecycle == s.lifecycle
  {
    if events != [] {
      FoldSplits(s, events);
      LifecycleStays(s, events[..|events| - 1]);
    }
  }

  /** No event from the `n`-th on revokes the capability. */
  ghost predicate KeptFrom(events: seq<Event>, n: int, capability: string) {
    forall j | 0 <= j < |events| && n <= j :: events[j].kind != CapabilityRevoked(capability)
  }

  /** Delegated by an event and not revoked by a later one, or held at the outset and never revoked. */
  ghost predicate Held(s: RuntimeState, events: seq<Event>, capability: string) {
    || (exists i :: 0 <= i < |events| && events[i].kind == CapabilityDelegated(capability)
          && KeptFrom(events, i, capability))
    || (capability in s.capabilities && KeptFrom(events, 0, capability))
  }

  lemma CapabilityStep(s: RuntimeState, e: Event, capability: string)
    ensures capability in Reduce(s, e).capabilities <==>
      || e.kind == CapabilityDelegated(capability)
      || (capability in s.capabilities && e.kind != CapabilityRevoked(capability))
  {
    match e.kind
    case CapabilityDelegated(c) => DedupeCorrect(s.capabilities + [c]);
    case CapabilityRevoked(c) => FilterMembers(s.capabilities, x => x != c);
    case _ =>
  }

  lemma HeldSnoc(s: RuntimeState, front: seq<Event>, e: Event, capability: string)
    ensures Held(s, front + [e], capability) <==>
      || e.kind == CapabilityDelegated(capability)
      || (Held(s, front, capability) && e.kind != CapabilityRevoked(capability))
  {
    var events, n := front + [e], |front|;
    assert events[n] == e && forall j | 0 <= j < n :: events[j] == front[j];
    forall m | 0 <= m <= n
      ensures KeptFrom(events, m, capability)
         <==> KeptFrom(front, m, capability) && e.kind != CapabilityRevoked(capability)
    {
      if KeptFrom(events, m, capability) {
        forall j | 0 <= j < n && m <= j ensures front[j].kind != CapabilityRevoked(capability) {
          assert events[j] == front[j];
        }
      }
    }
    if e.kind == CapabilityDelegated(capability) {
      assert events[n].kind == CapabilityDelegated(capability) && KeptFrom(events, n, capability);
    }
    if e.kind != CapabilityRevoked(capability) {
      if i :| 0 <= i < n && front[i].kind == CapabilityDelegated(capability) && KeptFrom(front, i, capability) {
        assert events[i].kind == CapabilityDelegated(capability) && KeptFrom(events, i, capability);
      }
    }
    if i :| 0 <= i < n && events[i].kind == CapabilityDelegated(capability) && KeptFrom(events, i, capability) {
      assert front[i].kind == CapabilityDelegated(capability) && KeptFrom(front, i, capability);
    }
  }

  /** A capability is held exactly if it was delegated and not revoked since. */
  lemma {:induction false} HeldIff(s: RuntimeState, events: seq<Event>, capability: string)
    ensures capability in Fold(s, events).capabilities <==> Held(s, events, capability)
  {
    if events != [] {
      var front, e := events[..|events| - 1], events[|events| - 1];
      HeldIff(s, front, capability);
      FoldSplits(s, events);
      CapabilityStep(Fold(s, front), e, capability);
      HeldSnoc(s, front, e, capability);
      assert events == front + [e];
    }
  }

  ghost function Revocations(events: seq<Event>): nat {
    if events == [] then 0
    else Revocations(events[..|events| - 1]) + if events[|events| - 1].kind.CapabilityRevoked? then 1 else 0
  }

  /** Readiness grows by twenty with every revocation, up to a hundred. */
  lemma {:induction false} ReadinessTells(s: RuntimeState, events: seq<Event>)
    requires s.revocationReadiness <= 100
    ensures var wanted := s.revocationReadiness + 20 * Revocations(events);
      Fold(s, events).revocationReadiness == if wanted < 100 then wanted else 100
  {
    if events != [] {
      FoldSplits(s, events);
      ReadinessTells(s, events[..|events| - 1]);
    }
  }

  ghost function DeltaSum(events: seq<Event>): int {
    if events == [] then 0
    else
      var last := events[|events| - 1];
      DeltaSum(events[..|events| - 1]) + if last.kind.TrustChanged? then last.kind.delta else 0
  }

  /** While the sum of the changes never leaves the scale, trust is that sum. */
  lemma {:induction false} TrustIsSum(s: RuntimeState, events: seq<Event>)
    requires forall n | 0 <= n <= |events| :: 0 <= s.trustScore + DeltaSum(events[..n]) <= 100
    ensures Fold(s, events).trustScore == s.trustScore + DeltaSum(events)
  {
    assert events[..|events|] == events;
    if events != [] {
      var front := events[..|events| - 1];
      forall n | 0 <= n <= |front| ensures 0 <= s.trustScore + DeltaSum(front[..n]) <= 100 {
        assert front[..n] == events[..n];
      }
      FoldSplits(s, events);
      TrustIsSum(s, front);
      ReduceTells(Fold(s, front), events[|events| - 1]);
    }
  }
}
