/** The event-sourced orchestrator: an append-only log, incremental snapshots, and replay. */
module Orchestrator {
  import opened Options
  import opened Sorting
  import opened Text

  datatype Lifecycle = Proposed | Active | Paused | Revoked | Expired

  datatype Health = Stable | Degraded | Critical

  datatype Exposure = NoExposure | Limited | Extended

  /** Event types with the part of their payload that is read; all others only move the sequence on. */
  datatype Kind =
    | Created
    | LifecycleChanged(to: Lifecycle)
    | TrustChanged(delta: int)
    | CapabilityDelegated(capability: string)
    | CapabilityRevoked(capability: string)
    | AiAttested
    | OtherKind

  datatype Event = Event(eventId: string, tenant: string, relationship: string, kind: Kind, ts: int, sequence: int)

  datatype RuntimeState = RuntimeState(
    tenant: string, relationship: string, trustScore: int, lifecycle: Lifecycle, capabilities: seq<string>,
    health: Health, revocationReadiness: int, exposure: Exposure, resilienceScore: int, lastEventSequence: int)

  datatype Snapshot = Snapshot(
    tenant: string, relationship: string, asOfSequence: int, capturedAt: int, state: RuntimeState)

  datatype Store = Store(log: seq<Event>, snapshots: map<string, Snapshot>)

  function DefaultState(tenant: string, relationship: string): RuntimeState {
    RuntimeState(tenant, relationship, 50, Proposed, [], Stable, 0, NoExposure, 50, 0)
  }

  function Clamp(n: int): int {
    if n < 0 then 0 else if n > 100 then 100 else n
  }

  function HealthOf(trustScore: int): Health {
    if trustScore < 30 then Critical else if trustScore < 60 then Degraded else Stable
  }

  /** Dafny's division by two rounds down, as `Math.floor` does. */
  function Reduce(s: RuntimeState, e: Event): RuntimeState {
    var next := s.(lastEventSequence := e.sequence);
    match e.kind
    case Created => next.(lifecycle := Active)
    case LifecycleChanged(to) => next.(lifecycle := to)
    case TrustChanged(delta) =>
      var trustScore := Clamp(s.trustScore + delta);
      next.(trustScore := trustScore, health := HealthOf(trustScore),
        resilienceScore := Clamp(s.resilienceScore + delta / 2))
    case CapabilityDelegated(c) => next.(capabilities := Dedupe(s.capabilities + [c]), exposure := Limited)
    case CapabilityRevoked(c) =>
      next.(capabilities := Filter(s.capabilities, x => x != c),
            revocationReadiness := if s.revocationReadiness + 20 > 100 then 100 else s.revocationReadiness + 20)
    case AiAttested => next.(exposure := Extended)
    case OtherKind => next
  }

  function Fold(s: RuntimeState, events: seq<Event>): RuntimeState
    decreases |events|
  {
    if events == [] then s else Fold(Reduce(s, events[0]), events[1..])
  }

  function OfRelationship(log: seq<Event>, tenant: string, relationship: string): seq<Event> {
    if log == [] then []
    else if log[0].tenant == tenant && log[0].relationship == relationship
    then [log[0]] + OfRelationship(log[1..], tenant, relationship)
    else OfRelationship(log[1..], tenant, relationship)
  }

  function UpTo(events: seq<Event>, to: Option<int>): seq<Event> {
    if events == [] then []
    else if to.None? || events[0].sequence <= to.value then [events[0]] + UpTo(events[1..], to)
    else UpTo(events[1..], to)
  }

  predicate SequenceLeq(a: Event, b: Event) {
    a.sequence <= b.sequence
  }

  function Reconstruct(log: seq<Event>, tenant: string, relationship: string, to: Option<int>): RuntimeState {
    Fold(DefaultState(tenant, relationship), Sort(UpTo(OfRelationship(log, tenant, relationship), to), SequenceLeq))
  }

  /** One tenant's events with sequence numbers from `from` to `to`, in the order they were logged. */
  function ReplayWindow(log: seq<Event>, tenant: string, from: int, to: int): seq<Event> {
    if log == [] then []
    else if log[0].tenant == tenant && from <= log[0].sequence <= to
    then [log[0]] + ReplayWindow(log[1..], tenant, from, to)
    else ReplayWindow(log[1..], tenant, from, to)
  }

  function Append(store: Store, e: Event): Store {
    var key := PairKey(e.tenant, e.relationship);
    var current :=
      if key in store.snapshots then store.snapshots[key].state else DefaultState(e.tenant, e.relationship);
    var snapshot := Snapshot(e.tenant, e.relationship, e.sequence, e.ts, Reduce(current, e));
    Store(store.log + [e], store.snapshots[key := snapshot])
  }

  /** The store after a history of appends. */
  function Run(events: seq<Event>): Store {
    if events == [] then Store([], map[]) else Append(Run(events[..|events| - 1]), events[|events| - 1])
  }

  // ---------- replay composes ----------

  lemma {:induction false} FoldConcat(s: RuntimeState, a: seq<Event>, b: seq<Event>)
    ensures Fold(s, a + b) == Fold(Fold(s, a), b)
    decreases |a|
  {
    if a == [] {
      assert a + b == b;
    } else {
      assert (a + b)[1..] == a[1..] + b;
      FoldConcat(Reduce(s, a[0]), a[1..], b);
    }
  }

  lemma FoldSnoc(s: RuntimeState, events: seq<Event>, e: Event)
    ensures Fold(s, events + [e]) == Reduce(Fold(s, events), e)
  {
    FoldConcat(s, events, [e]);
    assert Fold(Fold(s, events), [e]) == Fold(Reduce(Fold(s, events), e), []);
  }

  lemma {:induction false} InsertLeft(x: Event, a: seq<Event>, b: seq<Event>)
    requires forall y | y in b :: SequenceLeq(x, y)
    ensures Insert(x, a + b, SequenceLeq) == Insert(x, a, SequenceLeq) + b
  {
    if a == [] {
      assert a + b == b;
    } else if !SequenceLeq(x, a[0]) {
      assert (a + b)[1..] == a[1..] + b;
      InsertLeft(x, a[1..], b);
    }
  }

  lemma {:induction false} InsertRight(x: Event, a: seq<Event>, b: seq<Event>)
    requires forall y | y in a :: !SequenceLeq(x, y)
    ensures Insert(x, a + b, SequenceLeq) == a + Insert(x, b, SequenceLeq)
  {
    if a == [] {
      assert a + b == b;
    } else {
      assert (a + b)[1..] == a[1..] + b;
      InsertRight(x, a[1..], b);
    }
  }

  /** Events with sequence numbers in (n, m]. */
  ghost function Between(events: seq<Event>, n: int, m: int): seq<Event> {
    if events == [] then []
    else if n < events[0].sequence <= m then [events[0]] + Between(events[1..], n, m)
    else Between(events[1..], n, m)
  }

  lemma SequenceOrder()
    ensures TotalPreorder(SequenceLeq)
  {
  }

  lemma {:induction false} UpToMembers(events: seq<Event>, to: Option<int>)
    ensures forall e | e in UpTo(events, to) :: e in events && (to.Some? ==> e.sequence <= to.value)
    ensures to.None? ==> UpTo(events, to) == events
  {
    if events != [] {
      UpToMembers(events[1..], to);
    }
  }

  lemma {:induction false} BetweenMembers(events: seq<Event>, n: int, m: int)
    ensures forall e | e in Between(events, n, m) :: n < e.sequence <= m
  {
    if events != [] {
      BetweenMembers(events[1..], n, m);
    }
  }

  /** Stable sorting up to `m` is stable sorting up to `n`, then stable sorting what lies between. */
  lemma {:induction false} SortSplits(events: seq<Event>, n: int, m: int)
    requires n <= m
    ensures Sort(UpTo(events, Some(m)), SequenceLeq)
      == Sort(UpTo(events, Some(n)), SequenceLeq) + Sort(Between(events, n, m), SequenceLeq)
  {
    if events != [] {
      var x, rest := events[0], events[1..];
      SortSplits(rest, n, m);
      UpToMembers(rest, Some(n));
      BetweenMembers(rest, n, m);
      InsertSplits(x, UpTo(rest, Some(n)), Between(rest, n, m), n, m);
      SortCons(x, UpTo(rest, Some(m)));
      SortCons(x, UpTo(rest, Some(n)));
      SortCons(x, Between(rest, n, m));
    }
  }

  lemma InsertSplits(x: Event, a: seq<Event>, b: seq<Event>, n: int, m: int)
    requires (forall e | e in a :: e.sequence <= n) && (forall e | e in b :: n < e.sequence <= m)
    ensures var low, high := Sort(a, SequenceLeq), Sort(b, SequenceLeq);
      && (x.sequence <= n ==> Insert(x, low + high, SequenceLeq) == Insert(x, low, SequenceLeq) + high)
      && (n < x.sequence ==> Insert(x, low + high, SequenceLeq) == low + Insert(x, high, SequenceLeq))
  {
    SequenceOrder();
    SortMembers(a, SequenceLeq);
    SortMembers(b, SequenceLeq);
    if x.sequence <= n {
      InsertLeft(x, Sort(a, SequenceLeq), Sort(b, SequenceLeq));
    } else {
      InsertRight(x, Sort(a, SequenceLeq), Sort(b, SequenceLeq));
    }
  }

  lemma SortCons(x: Event, s: seq<Event>)
    ensures Sort([x] + s, SequenceLeq) == Insert(x, Sort(s, SequenceLeq), SequenceLeq)
  {
    assert ([x] + s)[1..] == s;
  }

  lemma {:induction false} WindowIsBetween(log: seq<Event>, tenant: string, relationship: string, n: int, m: int)
    ensures OfRelationship(ReplayWindow(log, tenant, n + 1, m), tenant, relationship)
      == Between(OfRelationship(log, tenant, relationship), n, m)
  {
    if log != [] {
      WindowIsBetween(log[1..], tenant, relationship, n, m);
      var x := log[0];
      var window, mine := ReplayWindow(log[1..], tenant, n + 1, m), OfRelationship(log[1..], tenant, relationship);
      assert ([x] + window)[1..] == window && ([x] + mine)[1..] == mine;
    }
  }

  /** Replaying the window (n, m] on top of a reconstruction to n gives the reconstruction to m. */
  lemma ReplayComposes(log: seq<Event>, tenant: string, relationship: string, n: int, m: int)
    requires n <= m
    ensures var window := OfRelationship(ReplayWindow(log, tenant, n + 1, m), tenant, relationship);
      Reconstruct(log, tenant, relationship, Some(m))
      == Fold(Reconstruct(log, tenant, relationship, Some(n)), Sort(window, SequenceLeq))
  {
    var mine := OfRelationship(log, tenant, relationship);
    SortSplits(mine, n, m);
    WindowIsBetween(log, tenant, relationship, n, m);
    FoldConcat(DefaultState(tenant, relationship),
               Sort(UpTo(mine, Some(n)), SequenceLeq), Sort(Between(mine, n, m), SequenceLeq));
  }

  // ---------- reconstruction does not depend on arrival order ----------

  ghost predicate DistinctSequences(events: seq<Event>) {
    forall e, f | e in events && f in events && e.sequence == f.sequence :: e == f
  }

  lemma {:induction false} OfRelationshipMultiset(log: seq<Event>, tenant: string, relationship: string, e: Event)
    ensures multiset(OfRelationship(log, tenant, relationship))[e] ==
      if e.tenant == tenant && e.relationship == relationship then multiset(log)[e] else 0
  {
    if log != [] {
      OfRelationshipMultiset(log[1..], tenant, relationship, e);
      assert log == [log[0]] + log[1..];
    }
  }

  /** However the same events arrive, interleaved and out of order, they reconstruct to the same state, when each
      sequence number names one event of the relationship. */
  lemma ArrivalOrderIrrelevant(a: seq<Event>, b: seq<Event>, tenant: string, relationship: string)
    requires multiset(a) == multiset(b) && DistinctSequences(OfRelationship(a, tenant, relationship))
    ensures Reconstruct(a, tenant, relationship, None) == Reconstruct(b, tenant, relationship, None)
  {
    var mine, yours := OfRelationship(a, tenant, relationship), OfRelationship(b, tenant, relationship);
    forall e ensures multiset(mine)[e] == multiset(yours)[e] {
      OfRelationshipMultiset(a, tenant, relationship, e);
      OfRelationshipMultiset(b, tenant, relationship, e);
    }
    assert multiset(mine) == multiset(yours);
    UpToMembers(mine, None);
    UpToMembers(yours, None);
    SequenceOrder();
    SortCorrect(mine, SequenceLeq);
    SortCorrect(yours, SequenceLeq);
    SortMembers(mine, SequenceLeq);
    SortedUnique(Sort(mine, SequenceLeq), Sort(yours, SequenceLeq), SequenceLeq);
  }

  // ---------- what a snapshot stands for ----------

  lemma {:induction false} OfRelationshipAppend(log: seq<Event>, e: Event, tenant: string, relationship: string)
    ensures OfRelationship(log + [e], tenant, relationship) == OfRelationship(log, tenant, relationship)
      + if e.tenant == tenant && e.relationship == relationship then [e] else []
  {
    if log == [] {
      assert log + [e] == [e];
    } else {
      assert (log + [e])[1..] == log[1..] + [e];
      OfRelationshipAppend(log[1..], e, tenant, relationship);
    }
  }

  lemma {:induction false} RunLog(events: seq<Event>)
    ensures Run(events).log == events
  {
    if events != [] {
      RunLog(events[..|events| - 1]);
    }
  }

  predicate Keyed(e: Event, key: string) {
    PairKey(e.tenant, e.relationship) == key
  }

  function OfKey(log: seq<Event>, key: string): seq<Event> {
    if log == [] then []
    else if Keyed(log[|log| - 1], key) then OfKey(log[..|log| - 1], key) + [log[|log| - 1]]
    else OfKey(log[..|log| - 1], key)
  }

  /** The snapshot that stands for some events: it carries the last one's names, sequence and time, and their fold in
      order of arrival from the initial state of the first one's relationship. */
  ghost predicate Stands(snapshots: map<string, Snapshot>, key: string, events: seq<Event>) {
    && (key in snapshots <==> events != [])
    && (events != [] ==>
          var first, last := events[0], events[|events| - 1];
          snapshots[key] == Snapshot(
            last.tenant, last.relationship, last.sequence, last.ts,
            Fold(DefaultState(first.tenant, first.relationship), events)))
  }

  /** Whatever arrives between them, the snapshot under a key stands for the events with that key in arrival order. */
  lemma {:induction false} SnapshotIsArrivalFold(events: seq<Event>, key: string)
    ensures Stands(Run(events).snapshots, key, OfKey(events, key))
  {
    if events != [] {
      var before, e := events[..|events| - 1], events[|events| - 1];
      SnapshotIsArrivalFold(before, key);
      AppendStands(Run(before), e, key, OfKey(before, key));
    }
  }

  lemma AppendStands(store: Store, e: Event, key: string, mine: seq<Event>)
    requires Stands(store.snapshots, key, mine)
    ensures Stands(Append(store, e).snapshots, key, if Keyed(e, key) then mine + [e] else mine)
  {
    if Keyed(e, key) {
      if mine == [] {
        assert mine + [e] == [e];
        FoldSnoc(DefaultState(e.tenant, e.relationship), [], e);
        assert [] + [e] == [e];
      } else {
        FoldSnoc(DefaultState(mine[0].tenant, mine[0].relationship), mine, e);
      }
    }
  }

  // ---------- snapshots against replay ----------

  predicate Of(e: Event, tenant: string, relationship: string) {
    e.tenant == tenant && e.relationship == relationship
  }

  /** No other relationship's event in the log has this relationship's key. */
  ghost predicate Unshared(events: seq<Event>, tenant: string, relationship: string) {
    forall e | e in events && Keyed(e, PairKey(tenant, relationship)) :: Of(e, tenant, relationship)
  }

  /** The relationship's own events arrive in sequence order. */
  ghost predicate InOrder(events: seq<Event>, tenant: string, relationship: string) {
    forall i, j | 0 <= i < j < |events| && Of(events[i], tenant, relationship) && Of(events[j], tenant, relationship) ::
      events[i].sequence <= events[j].sequence
  }

  /** The state a snapshot lookup gives, with the initial state where there is none. */
  function Current(events: seq<Event>, tenant: string, relationship: string): RuntimeState {
    var key := PairKey(tenant, relationship);
    if key in Run(events).snapshots then Run(events).snapshots[key].state else DefaultState(tenant, relationship)
  }

  ghost predicate Agrees(events: seq<Event>, tenant: string, relationship: string) {
    Current(events, tenant, relationship) == Reconstruct(events, tenant, relationship, None)
  }

  lemma {:induction false} KeyIsRelationship(events: seq<Event>, tenant: string, relationship: string)
    requires Unshared(events, tenant, relationship)
    ensures OfKey(events, PairKey(tenant, relationship)) == OfRelationship(events, tenant, relationship)
  {
    if events != [] {
      var before, e := events[..|events| - 1], events[|events| - 1];
      assert events == before + [e];
      assert e in events && forall x | x in before :: x in events;
      KeyIsRelationship(before, tenant, relationship);
      OfRelationshipAppend(before, e, tenant, relationship);
      if !Of(e, tenant, relationship) {
        assert OfRelationship(before, tenant, relationship) + [] == OfRelationship(before, tenant, relationship);
      }
    }
  }

  lemma {:induction false} OfRelationshipMembers(events: seq<Event>, tenant: string, relationship: string)
    ensures forall e :: e in OfRelationship(events, tenant, relationship) <==>
      e in events && Of(e, tenant, relationship)
  {
    if events != [] {
      OfRelationshipMembers(events[1..], tenant, relationship);
      assert events == [events[0]] + events[1..];
    }
  }

  lemma {:induction false} InOrderSorted(events: seq<Event>, tenant: string, relationship: string)
    requires InOrder(events, tenant, relationship)
    ensures Sorted(OfRelationship(events, tenant, relationship), SequenceLeq)
  {
    if events != [] {
      var rest := events[1..];
      assert forall i | 0 <= i < |rest| :: rest[i] == events[i + 1];
      InOrderSorted(rest, tenant, relationship);
      OfRelationshipMembers(rest, tenant, relationship);
      if Of(events[0], tenant, relationship) {
        forall e | e in OfRelationship(rest, tenant, relationship) ensures SequenceLeq(events[0], e) {
          var j :| 0 <= j < |rest| && rest[j] == e;
          assert events[j + 1] == e;
        }
      }
    }
  }

  /** Arrived in order under a key of its own, a relationship's snapshot is its replay. */
  lemma SnapshotEqualsReplay(events: seq<Event>, tenant: string, relationship: string)
    requires Unshared(events, tenant, relationship) && InOrder(events, tenant, relationship)
    ensures Agrees(events, tenant, relationship)
  {
    var mine := OfRelationship(events, tenant, relationship);
    SnapshotIsArrivalFold(events, PairKey(tenant, relationship));
    KeyIsRelationship(events, tenant, relationship);
    OfRelationshipMembers(events, tenant, relationship);
    if mine != [] {
      assert mine[0] in mine;
    }
    InOrderSorted(events, tenant, relationship);
    UpToMembers(mine, None);
    SortFixed(mine, SequenceLeq);
  }

  /** A reconstruction carries its relationship's names and, when there are events, the greatest sequence number. */
  lemma ReconstructEnds(events: seq<Event>, tenant: string, relationship: string)
    ensures var s := Reconstruct(events, tenant, relationship, None);
      && s.tenant == tenant && s.relationship == relationship
      && forall e | e in events && Of(e, tenant, relationship) :: e.sequence <= s.lastEventSequence
  {
    var mine := OfRelationship(events, tenant, relationship);
    var sorted := Sort(mine, SequenceLeq);
    UpToMembers(mine, None);
    SequenceOrder();
    SortCorrect(mine, SequenceLeq);
    SortMembers(mine, SequenceLeq);
    OfRelationshipMembers(events, tenant, relationship);
    FoldNames(DefaultState(tenant, relationship), sorted);
    if sorted != [] {
      LastSequence(DefaultState(tenant, relationship), sorted);
      forall e | e in mine ensures e.sequence <= sorted[|sorted| - 1].sequence {
        assert e in sorted;
        var i :| 0 <= i < |sorted| && sorted[i] == e;
        assert i == |sorted| - 1 || SequenceLeq(sorted[i], sorted[|sorted| - 1]);
      }
    }
  }

  lemma {:induction false} FoldNames(s: RuntimeState, events: seq<Event>)
    ensures Fold(s, events).tenant == s.tenant && Fold(s, events).relationship == s.relationship
    decreases |events|
  {
    if events != [] {
      FoldNames(Reduce(s, events[0]), events[1..]);
    }
  }

  /** A late event parts them: the snapshot takes its sequence number for the last, the replay does not. */
  lemma LateEventDiffers(events: seq<Event>, i: nat, j: nat)
    requires i < j < |events| && events[j].sequence < events[i].sequence
    requires Of(events[i], events[j].tenant, events[j].relationship)
    ensures !Agrees(events[..j + 1], events[j].tenant, events[j].relationship)
  {
    var prefix, e := events[..j + 1], events[j];
    var key := PairKey(e.tenant, e.relationship);
    SnapshotIsArrivalFold(prefix, key);
    assert prefix[|prefix| - 1] == e && prefix[i] == events[i] && events[i] in prefix;
    var mine := OfKey(prefix, key);
    assert mine[|mine| - 1] == e;
    LastSequence(DefaultState(mine[0].tenant, mine[0].relationship), mine);
    ReconstructEnds(prefix, e.tenant, e.relationship);
  }

  lemma PrefixKeeps(events: seq<Event>, n: nat, tenant: string, relationship: string)
    requires n <= |events|
    ensures Unshared(events, tenant, relationship) ==> Unshared(events[..n], tenant, relationship)
    ensures InOrder(events, tenant, relationship) ==> InOrder(events[..n], tenant, relationship)
  {
    assert forall e | e in events[..n] :: e in events;
  }

  /** One relationship with a key of its own: snapshot and replay agree after every append exactly when its own
      events arrive in sequence order, whatever the other relationships do. */
  lemma AgreementIffInOrder(events: seq<Event>, tenant: string, relationship: string)
    requires Unshared(events, tenant, relationship)
    ensures (forall n | 0 <= n <= |events| :: Agrees(events[..n], tenant, relationship))
       <==> InOrder(events, tenant, relationship)
  {
    if InOrder(events, tenant, relationship) {
      forall n | 0 <= n <= |events| ensures Agrees(events[..n], tenant, relationship) {
        PrefixKeeps(events, n, tenant, relationship);
        SnapshotEqualsReplay(events[..n], tenant, relationship);
      }
    } else {
      var i, j :| 0 <= i < j < |events| && Of(events[i], tenant, relationship) && Of(events[j], tenant, relationship)
        && events[j].sequence < events[i].sequence;
      LateEventDiffers(events, i, j);
    }
  }

  /** Two relationships under one key cannot both agree: the shared snapshot carries only one pair of names. */
  lemma SharedKeyDiffers(events: seq<Event>, e: Event, f: Event)
    requires PairKey(e.tenant, e.relationship) == PairKey(f.tenant, f.relationship)
    requires Agrees(events, e.tenant, e.relationship) && Agrees(events, f.tenant, f.relationship) && e in events
    ensures Of(e, f.tenant, f.relationship)
  {
    var key := PairKey(e.tenant, e.relationship);
    SnapshotIsArrivalFold(events, key);
    OfKeyMember(events, key, e);
    ReconstructEnds(events, e.tenant, e.relationship);
    ReconstructEnds(events, f.tenant, f.relationship);
  }

  lemma {:induction false} OfKeyMember(events: seq<Event>, key: string, e: Event)
    requires e in events && Keyed(e, key)
    ensures e in OfKey(events, key)
  {
    var before, last := events[..|events| - 1], events[|events| - 1];
    assert events == before + [last];
    if e != last {
      OfKeyMember(before, key, e);
    }
  }

  /** Every snapshot of the store is the replay of the log, for each relationship seen so far. */
  ghost predicate AllAgree(events: seq<Event>) {
    forall e | e in events :: Agrees(events, e.tenant, e.relationship)
  }

  lemma AgreementMeansOrder(events: seq<Event>, e: Event)
    requires forall n | 0 <= n <= |events| :: AllAgree(events[..n])
    ensures InOrder(events, e.tenant, e.relationship)
  {
    forall i, j | 0 <= i < j < |events| && Of(events[i], e.tenant, e.relationship)
        && Of(events[j], e.tenant, e.relationship)
      ensures events[i].sequence <= events[j].sequence
    {
      var prefix := events[..j + 1];
      assert AllAgree(prefix) && prefix[j] == events[j] && events[j] in prefix;
      if events[j].sequence < events[i].sequence {
        LateEventDiffers(events, i, j);
      }
    }
  }

  lemma AgreementMeansUnshared(events: seq<Event>, e: Event)
    requires AllAgree(events) && e in events
    ensures Unshared(events, e.tenant, e.relationship)
  {
    forall f | f in events && Keyed(f, PairKey(e.tenant, e.relationship)) ensures Of(f, e.tenant, e.relationship) {
      SharedKeyDiffers(events, f, e);
    }
  }

  lemma OrderMeansAgreement(events: seq<Event>, n: nat)
    requires n <= |events|
    requires forall e | e in events ::
      InOrder(events, e.tenant, e.relationship) && Unshared(events, e.tenant, e.relationship)
    ensures AllAgree(events[..n])
  {
    forall e | e in events[..n] ensures Agrees(events[..n], e.tenant, e.relationship) {
      assert e in events;
      PrefixKeeps(events, n, e.tenant, e.relationship);
      SnapshotEqualsReplay(events[..n], e.tenant, e.relationship);
    }
  }

  /** Exactly when, over a whole history, all snapshots agree with replay after every append: each relationship's
      events arrive in sequence order, and no two relationships share a key. */
  lemma SnapshotsAgreeIff(events: seq<Event>)
    ensures (forall n | 0 <= n <= |events| :: AllAgree(events[..n])) <==>
      forall e | e in events :: InOrder(events, e.tenant, e.relationship) && Unshared(events, e.tenant, e.relationship)
  {
    if forall n | 0 <= n <= |events| :: AllAgree(events[..n]) {
      assert events[..|events|] == events && AllAgree(events);
      forall e | e in events
        ensures InOrder(events, e.tenant, e.relationship) && Unshared(events, e.tenant, e.relationship)
      {
        AgreementMeansOrder(events, e);
        AgreementMeansUnshared(events, e);
      }
    }
    if forall e | e in events ::
      InOrder(events, e.tenant, e.relationship) && Unshared(events, e.tenant, e.relationship)
    {
      forall n | 0 <= n <= |events| ensures AllAgree(events[..n]) {
        OrderMeansAgreement(events, n);
      }
    }
  }

  /** When no tenant name with its colons begins another, no two relationships share a key. */
  lemma TenantsApart(events: seq<Event>)
    requires forall e, f | e in events && f in events && e.tenant + "::" <= f.tenant + "::" :: e.tenant == f.tenant
    ensures forall e | e in events :: Unshared(events, e.tenant, e.relationship)
  {
    forall e, f | e in events && f in events && Keyed(f, PairKey(e.tenant, e.relationship))
      ensures Of(f, e.tenant, e.relationship)
    {
      if |e.tenant| <= |f.tenant| {
        PairKeyEqual(e.tenant, e.relationship, f.tenant, f.relationship);
      } else {
        PairKeyEqual(f.tenant, f.relationship, e.tenant, e.relationship);
      }
      assert e.tenant == f.tenant;
      assert e.relationship == PairKey(e.tenant, e.relationship)[|e.tenant| + 2..] == f.relationship;
    }
  }

  lemma LastSequence(s: RuntimeState, events: seq<Event>)
    requires events != []
    ensures Fold(s, events).lastEventSequence == events[|events| - 1].sequence
  {
    assert events == events[..|events| - 1] + [events[|events| - 1]];
    FoldSnoc(s, events[..|events| - 1], events[|events| - 1]);
  }

  lemma FoldTwo(s: RuntimeState, a: Event, b: Event)
    ensures Fold(s, [a, b]) == Reduce(Reduce(s, a), b)
  {
    assert [a, b] == [a] + [b] && [a] == [] + [a];
    FoldSnoc(s, [a], b);
    FoldSnoc(s, [], a);
  }

  lemma SortTwo(a: Event, b: Event)
    ensures Sort([a, b], SequenceLeq) == if SequenceLeq(a, b) then [a, b] else [b, a]
  {
    assert [a, b] == [a] + [b] && [b] == [b] + [];
    SortCons(a, [b]);
    SortCons(b, []);
    assert [b][1..] == [];
  }

  lemma OfTwo(a: Event, b: Event, tenant: string, relationship: string)
    ensures OfRelationship([a, b], tenant, relationship)
      == (if a.tenant == tenant && a.relationship == relationship then [a] else [])
       + (if b.tenant == tenant && b.relationship == relationship then [b] else [])
  {
    assert [a, b] == [a] + [b] && [a] == [] + [a];
    OfRelationshipAppend([a], b, tenant, relationship);
    OfRelationshipAppend([], a, tenant, relationship);
  }

  lemma OwnKeyCurrent(events: seq<Event>, tenant: string, relationship: string)
    requires forall e | e in events :: Of(e, tenant, relationship)
    ensures Current(events, tenant, relationship) == Fold(DefaultState(tenant, relationship), events)
    ensures OfRelationship(events, tenant, relationship) == events
  {
    SnapshotIsArrivalFold(events, PairKey(tenant, relationship));
    KeyIsRelationship(events, tenant, relationship);
    AllOfRelationship(events, tenant, relationship);
    if events != [] {
      assert events[0] in events;
    }
  }

  lemma {:induction false} AllOfRelationship(events: seq<Event>, tenant: string, relationship: string)
    requires forall e | e in events :: Of(e, tenant, relationship)
    ensures OfRelationship(events, tenant, relationship) == events
  {
    if events != [] {
      assert events[0] in events;
      AllOfRelationship(events[1..], tenant, relationship);
      assert events == [events[0]] + events[1..];
    }
  }

  /** An instance: as trust is clamped at every step, even the trust score of a late event's snapshot can be wrong. */
  lemma OutOfOrderDiffers()
    ensures var up := Event("1", "t", "r", TrustChanged(60), 0, 2);
      var down := Event("2", "t", "r", TrustChanged(-60), 0, 1);
      && Current([up, down], "t", "r").trustScore == 40
      && Reconstruct([up, down], "t", "r", None).trustScore == 60
  {
    var up, down := Event("1", "t", "r", TrustChanged(60), 0, 2), Event("2", "t", "r", TrustChanged(-60), 0, 1);
    OwnKeyCurrent([up, down], "t", "r");
    ReplayOfTwo(up, down, "t", "r");
    TrustOfTwo(DefaultState("t", "r"), up, down);
    TrustOfTwo(DefaultState("t", "r"), down, up);
  }

  lemma ReplayOfTwo(a: Event, b: Event, tenant: string, relationship: string)
    requires Of(a, tenant, relationship) && Of(b, tenant, relationship) && b.sequence < a.sequence
    ensures Reconstruct([a, b], tenant, relationship, None) == Fold(DefaultState(tenant, relationship), [b, a])
  {
    AllOfRelationship([a, b], tenant, relationship);
    UpToMembers([a, b], None);
    SortTwo(a, b);
  }

  lemma TrustOfTwo(s: RuntimeState, a: Event, b: Event)
    requires a.kind.TrustChanged? && b.kind.TrustChanged?
    ensures Fold(s, [a, b]).trustScore == Clamp(Clamp(s.trustScore + a.kind.delta) + b.kind.delta)
  {
    FoldTwo(s, a, b);
  }

  /** With colons in tenant ids two relationships can share a snapshot: the second tenant's snapshot then carries
      the first one's state and identity. */
  lemma ColonsCollide()
    ensures PairKey("a", ":b") == PairKey("a:", "b")
    ensures var first := Event("1", "a", ":b", Created, 0, 1);
      var second := Event("2", "a:", "b", OtherKind, 0, 1);
      var store := Run([first, second]);
      && PairKey("a:", "b") in store.snapshots
      && store.snapshots[PairKey("a:", "b")].state.tenant == "a"
      && store.snapshots[PairKey("a:", "b")].state.lifecycle == Active
      && Reconstruct([first, second], "a:", "b", None).lifecycle == Proposed
  {
    var first, second := Event("1", "a", ":b", Created, 0, 1), Event("2", "a:", "b", OtherKind, 0, 1);
    assert PairKey("a", ":b") == "a:::b" == PairKey("a:", "b");
    assert [first, second][..1] == [first] && [first][..0] == [];
    assert Run([first]) == Append(Run([]), first);
    assert Run([first, second]) == Append(Run([first]), second);
    assert "a" != "a:" by { assert |"a"| != |"a:"|; }
    OfTwo(first, second, "a:", "b");
    assert OfRelationship([first, second], "a:", "b") == [second];
    UpToMembers([second], None);
    assert Sort([second], SequenceLeq) == [second];
    FoldSnoc(DefaultState("a:", "b"), [], second);
    assert [] + [second] == [second];
  }

  // ---------- bounds on every reachable state ----------

  ghost predicate SoundState(s: RuntimeState) {
    && 0 <= s.trustScore <= 100 && 0 <= s.resilienceScore <= 100 && 0 <= s.revocationReadiness <= 100
    && Distinct(s.capabilities)
  }

  lemma {:induction false} FilterDistinct(s: seq<string>, keep: string -> bool)
    requires Distinct(s)
    ensures Distinct(Filter(s, keep))
  {
    if s != [] {
      FilterDistinct(s[1..], keep);
      FilterMembers(s[1..], keep);
    }
  }

  lemma ReduceSound(s: RuntimeState, e: Event)
    requires SoundState(s)
    ensures SoundState(Reduce(s, e))
  {
    match e.kind
    case CapabilityDelegated(c) => DedupeCorrect(s.capabilities + [c]);
    case CapabilityRevoked(c) => FilterDistinct(s.capabilities, x => x != c);
    case _ =>
  }

  lemma {:induction false} FoldSound(s: RuntimeState, events: seq<Event>)
    requires SoundState(s)
    ensures SoundState(Fold(s, events))
    decreases |events|
  {
    if events != [] {
      ReduceSound(s, events[0]);
      FoldSound(Reduce(s, events[0]), events[1..]);
    }
  }

  /** Every snapshot of every history and every reconstruction keeps its scores within bounds and lists each
      delegated capability once, with no condition on order or ids. */
  lemma {:induction false} AlwaysSound(events: seq<Event>, tenant: string, relationship: string, to: Option<int>)
    ensures forall k | k in Run(events).snapshots :: SoundState(Run(events).snapshots[k].state)
    ensures SoundState(Reconstruct(events, tenant, relationship, to))
  {
    if events != [] {
      var e := events[|events| - 1];
      var before := Run(events[..|events| - 1]);
      AlwaysSound(events[..|events| - 1], tenant, relationship, to);
      var key := PairKey(e.tenant, e.relationship);
      var current :=
        if key in before.snapshots then before.snapshots[key].state else DefaultState(e.tenant, e.relationship);
      ReduceSound(current, e);
    }
    var mine := UpTo(OfRelationship(events, tenant, relationship), to);
    FoldSound(DefaultState(tenant, relationship), Sort(mine, SequenceLeq));
  }

  ghost predicate HasTrustEvent(events: seq<Event>) {
    exists e | e in events :: e.kind.TrustChanged?
  }

  /** Below thirty, below sixty, and from sixty on. */
  ghost predicate HealthFits(s: RuntimeState) {
    && (s.health == Critical <==> s.trustScore < 30)
    && (s.health == Degraded <==> 30 <= s.trustScore < 60)
    && (s.health == Stable <==> 60 <= s.trustScore)
  }

  /** Health follows the trust score from the first trust event on; before it, health is stable at score fifty. */
  lemma {:induction false} HealthFollowsTrust(s: RuntimeState, events: seq<Event>)
    requires HasTrustEvent(events) || HealthFits(s)
    ensures HealthFits(Fold(s, events))
    decreases |events|
  {
    if events != [] {
      assert events == [events[0]] + events[1..];
      HealthFollowsTrust(Reduce(s, events[0]), events[1..]);
    }
  }

  // ---------- the orchestrator ----------

  class DistributedRuntimeOrchestrator {
    var eventLog: seq<Event>
    var snapshots: map<string, Snapshot>

    constructor ()
      ensures Store(eventLog, snapshots) == Run([])
    {
      eventLog, snapshots := [], map[];
    }

    method AppendEvent(e: Event)
      modifies this
      ensures Store(eventLog, snapshots) == Append(old(Store(eventLog, snapshots)), e)
    {
      eventLog := eventLog + [e];
      var key := PairKey(e.tenant, e.relationship);
      var current := if key in snapshots then snapshots[key].state else DefaultState(e.tenant, e.relationship);
      var next := Reduce(current, e);
      snapshots := snapshots[key := Snapshot(e.tenant, e.relationship, e.sequence, e.ts, next)];
    }
  }
}
