/** What a bill's lines say of the resources and actions they show, and when the order of recording shows on a bill. */
module Bills {
  import opened Options
  import opened Sorting
  import opened Text
  import opened Monetization

  function Lines(events: seq<Event>, consumerId: string): seq<Group> {
    SummaryOf(events, consumerId).byResourceAction
  }

  // ---------- lines and pairs ----------

  predicate SamePair(e: Event, resource: string, action: string) {
    e.resource == resource && e.action == action
  }

  predicate Billable(e: Event, consumerId: string, key: string) {
    e.consumerId == consumerId && KeyOf(e) == key
  }

  /** The totals of a consumer's events for one resource and action. */
  function PairSum(events: seq<Event>, consumerId: string, resource: string, action: string): Totals {
    if events == [] then Zero()
    else
      var e, rest := events[0], PairSum(events[1..], consumerId, resource, action);
      if e.consumerId == consumerId && SamePair(e, resource, action) then Plus(Of(e), rest) else rest
  }

  /** No other pair of the consumer's events has the key of this one. */
  ghost predicate OwnKey(events: seq<Event>, consumerId: string, resource: string, action: string) {
    forall e | e in events && Billable(e, consumerId, PairKey(resource, action)) :: SamePair(e, resource, action)
  }

  lemma OwnKeyCons(events: seq<Event>, consumerId: string, resource: string, action: string)
    requires events != []
    ensures OwnKey(events, consumerId, resource, action) <==>
      && OwnKey(events[1..], consumerId, resource, action)
      && (Billable(events[0], consumerId, PairKey(resource, action)) ==> SamePair(events[0], resource, action))
  {
    assert events == [events[0]] + events[1..];
  }

  lemma ShareOfBillable(e: Event, consumerId: string, key: string)
    ensures Share(e, Some(consumerId), Some(key)) == if Billable(e, consumerId, key) then Of(e) else Zero()
  {
  }

  lemma CountsApart(events: seq<Event>, consumerId: string, resource: string, action: string)
    ensures PairSum(events, consumerId, resource, action).count
         <= Sum(events, Some(consumerId), Some(PairKey(resource, action))).count
    ensures PairSum(events, consumerId, resource, action).count
         == Sum(events, Some(consumerId), Some(PairKey(resource, action))).count
       <==> OwnKey(events, consumerId, resource, action)
  {
    if events != [] {
      CountsApart(events[1..], consumerId, resource, action);
      OwnKeyCons(events, consumerId, resource, action);
      ShareOfBillable(events[0], consumerId, PairKey(resource, action));
    }
  }

  lemma {:induction false} OwnKeySums(events: seq<Event>, consumerId: string, resource: string, action: string)
    requires OwnKey(events, consumerId, resource, action)
    ensures Sum(events, Some(consumerId), Some(PairKey(resource, action)))
         == PairSum(events, consumerId, resource, action)
  {
    if events != [] {
      OwnKeyCons(events, consumerId, resource, action);
      OwnKeySums(events[1..], consumerId, resource, action);
      ShareOfBillable(events[0], consumerId, PairKey(resource, action));
      PlusZero(PairSum(events[1..], consumerId, resource, action));
    }
  }

  /** A line charges exactly the events of the resource and action it shows, exactly when no other pair of the
      consumer's events has its key. */
  lemma LineIsPairIff(events: seq<Event>, consumerId: string, line: Group)
    requires line in Lines(events, consumerId)
    ensures line.totals == PairSum(events, consumerId, line.resource, line.action)
       <==> OwnKey(events, consumerId, line.resource, line.action)
  {
    LineTotals(events, consumerId, line);
    CountsApart(events, consumerId, line.resource, line.action);
    if OwnKey(events, consumerId, line.resource, line.action) {
      OwnKeySums(events, consumerId, line.resource, line.action);
    }
  }

  /** With colon-free resources every line is the bill of its pair. */
  lemma PlainResourcesBilledApart(events: seq<Event>, consumerId: string, line: Group)
    requires forall e | e in events && e.consumerId == consumerId :: ':' !in e.resource
    requires line in Lines(events, consumerId)
    ensures line.totals == PairSum(events, consumerId, line.resource, line.action)
  {
    LineIsFirst(events, consumerId, line);
    forall e | e in events && Billable(e, consumerId, PairKey(line.resource, line.action))
      ensures SamePair(e, line.resource, line.action)
    {
      PairKeyInjective(e.resource, e.action, line.resource, line.action);
    }
    LineIsPairIff(events, consumerId, line);
  }

  /** Recording an event adds it to the bill of its resource and action and to that of no other pair; it shows on the
      line of its key. */
  lemma RecordingAddsToPair(events: seq<Event>, e: Event, consumerId: string, resource: string, action: string)
    ensures PairSum(events + [e], consumerId, resource, action) ==
      if e.consumerId == consumerId && SamePair(e, resource, action)
      then Plus(PairSum(events, consumerId, resource, action), Of(e))
      else PairSum(events, consumerId, resource, action)
  {
    if events == [] {
      assert events + [e] == [e];
      PlusZero(Of(e));
    } else {
      assert (events + [e])[1..] == events[1..] + [e];
      RecordingAddsToPair(events[1..], e, consumerId, resource, action);
    }
  }

  // ---------- which event a line is named after ----------

  /** The place of the first event under a key, or the number of events. */
  function FirstAt(events: seq<Event>, key: string): nat {
    if events == [] || KeyOf(events[0]) == key then 0 else 1 + FirstAt(events[1..], key)
  }

  lemma {:induction false} FirstAtExactly(events: seq<Event>, key: string)
    ensures var k := FirstAt(events, key);
      && k <= |events|
      && (k < |events| ==> KeyOf(events[k]) == key)
      && forall i | 0 <= i < k :: KeyOf(events[i]) != key
  {
    if events != [] && KeyOf(events[0]) != key {
      FirstAtExactly(events[1..], key);
      assert forall i | 1 <= i < |events| :: events[i] == events[1..][i - 1];
    }
  }

  lemma {:induction false} FirstAtSnoc(events: seq<Event>, e: Event, key: string)
    ensures FirstAt(events, key) <= |events|
    ensures FirstAt(events + [e], key) ==
      if FirstAt(events, key) < |events| then FirstAt(events, key)
      else if KeyOf(e) == key then |events|
      else |events| + 1
  {
    if events == [] {
      assert events + [e] == [e] && [e][1..] == [];
    } else {
      assert (events + [e])[0] == events[0] && (events + [e])[1..] == events[1..] + [e];
      FirstAtSnoc(events[1..], e, key);
    }
  }

  /** A group is named after the first event under its key. */
  ghost predicate Named(groups: map<string, Group>, events: seq<Event>, k: string) {
    var p := FirstAt(events, k);
    && (k in groups <==> p < |events|)
    && (k in groups && p < |events| ==> SamePair(events[p], groups[k].resource, groups[k].action))
  }

  /** Groups come in the order of their first events. */
  ghost predicate Ordered(order: seq<string>, events: seq<Event>) {
    forall i, j | 0 <= i < j < |order| :: FirstAt(events, order[i]) < FirstAt(events, order[j])
  }

  lemma AddNames(g: Grouping, events: seq<Event>, e: Event, k: string)
    requires Named(g.groups, events, k)
    ensures Named(AddEvent(g, e).groups, events + [e], k)
  {
    FirstAtSnoc(events, e, k);
    var all, p := events + [e], FirstAt(events, k);
    assert all[|events|] == e;
    if p < |events| {
      assert all[p] == events[p];
    }
  }

  ghost predicate Seen(order: seq<string>, events: seq<Event>) {
    forall k | k in order :: FirstAt(events, k) < |events|
  }

  lemma OrderStays(order: seq<string>, events: seq<Event>, e: Event)
    requires Ordered(order, events) && Seen(order, events)
    ensures Ordered(order, events + [e])
    ensures forall k | k in order :: FirstAt(events + [e], k) < |events|
  {
    forall k | k in order ensures FirstAt(events + [e], k) == FirstAt(events, k) {
      FirstAtSnoc(events, e, k);
    }
    forall i, j | 0 <= i < j < |order| ensures FirstAt(events + [e], order[i]) < FirstAt(events + [e], order[j]) {
      assert order[i] in order && order[j] in order;
    }
  }

  lemma OrderGrows(order: seq<string>, all: seq<Event>, key: string)
    requires Ordered(order, all) && forall k | k in order :: FirstAt(all, k) < FirstAt(all, key)
    ensures Ordered(order + [key], all)
  {
    var longer := order + [key];
    forall i, j | 0 <= i < j < |longer| ensures FirstAt(all, longer[i]) < FirstAt(all, longer[j]) {
      assert longer[i] == order[i] && order[i] in order;
      assert j == |order| || longer[j] == order[j];
    }
  }

  lemma {:induction false} CollectNames(events: seq<Event>, k: string)
    ensures Named(Collect(events).groups, events, k)
  {
    if events != [] {
      var front, e := events[..|events| - 1], events[|events| - 1];
      CollectNames(front, k);
      AddNames(Collect(front), front, e, k);
      assert events == front + [e];
    }
  }

  lemma KeySeen(events: seq<Event>, k: string)
    ensures k in Collect(events).groups <==> FirstAt(events, k) < |events|
  {
    CollectNames(events, k);
    FirstAtExactly(events, k);
  }

  lemma WellCollected(events: seq<Event>)
    ensures WellGrouped(Collect(events))
  {
    CollectConserves(events);
  }

  lemma OrderSeen(events: seq<Event>)
    ensures Seen(Collect(events).order, events)
  {
    WellCollected(events);
    forall k | k in Collect(events).order ensures FirstAt(events, k) < |events| {
      KeySeen(events, k);
    }
  }

  lemma AddOrders(g: Grouping, events: seq<Event>, e: Event)
    requires Ordered(g.order, events) && Seen(g.order, events)
    requires KeyOf(e) in g.groups <==> FirstAt(events, KeyOf(e)) < |events|
    ensures Ordered(AddEvent(g, e).order, events + [e])
  {
    OrderStays(g.order, events, e);
    FirstAtSnoc(events, e, KeyOf(e));
    if KeyOf(e) !in g.groups {
      OrderGrows(g.order, events + [e], KeyOf(e));
    }
  }

  lemma {:induction false} CollectOrders(events: seq<Event>)
    ensures Ordered(Collect(events).order, events)
  {
    if events != [] {
      var front, e := events[..|events| - 1], events[|events| - 1];
      CollectOrders(front);
      OrderSeen(front);
      KeySeen(front, KeyOf(e));
      AddOrders(Collect(front), front, e);
      assert events == front + [e];
    }
  }

  /** An event of the consumer than which none under its key happened earlier. */
  ghost predicate Earliest(events: seq<Event>, consumerId: string, e: Event) {
    && e in events && e.consumerId == consumerId
    && forall f | f in events && Billable(f, consumerId, KeyOf(e)) :: e.occurredAt <= f.occurredAt
  }

  lemma FirstIsEarliest(events: seq<Event>, consumerId: string, key: string)
    requires FirstAt(Listed(events, OfConsumer(consumerId)), key) < |Listed(events, OfConsumer(consumerId))|
    ensures var listed := Listed(events, OfConsumer(consumerId));
      Earliest(events, consumerId, listed[FirstAt(listed, key)])
  {
    var listed := Listed(events, OfConsumer(consumerId));
    var p := FirstAt(listed, key);
    FirstAtExactly(listed, key);
    ListedExactly(events, OfConsumer(consumerId));
    assert listed[p] in listed;
    forall f | f in events && Billable(f, consumerId, key) ensures listed[p].occurredAt <= f.occurredAt {
      assert Monetization.Matches(OfConsumer(consumerId), f);
      assert f in listed;
      var q :| 0 <= q < |listed| && listed[q] == f;
      assert p == q || (p < q && TimeLeq(listed[p], listed[q]));
    }
  }

  /** A line carries the names of an earliest event under its key. */
  lemma LineIsFirst(events: seq<Event>, consumerId: string, line: Group)
    requires line in Lines(events, consumerId)
    ensures var listed := Listed(events, OfConsumer(consumerId));
      var p := FirstAt(listed, GroupKey(line));
      && p < |listed| && SamePair(listed[p], line.resource, line.action) && Earliest(events, consumerId, listed[p])
  {
    var listed := Listed(events, OfConsumer(consumerId));
    CollectNames(listed, GroupKey(line));
    LinesAreGroups(events, consumerId, line);
    FirstIsEarliest(events, consumerId, GroupKey(line));
  }

  lemma EventSeen(events: seq<Event>, e: Event)
    requires e in events
    ensures FirstAt(events, KeyOf(e)) < |events|
  {
    FirstAtExactly(events, KeyOf(e));
    var q :| 0 <= q < |events| && events[q] == e;
  }

  lemma LineOfEvent(events: seq<Event>, consumerId: string, e: Event) returns (line: Group)
    requires e in events && e.consumerId == consumerId
    ensures line in Lines(events, consumerId) && GroupKey(line) == KeyOf(e)
  {
    var listed := Listed(events, OfConsumer(consumerId));
    ListedExactly(events, OfConsumer(consumerId));
    assert Monetization.Matches(OfConsumer(consumerId), e);
    EventSeen(listed, e);
    KeySeen(listed, KeyOf(e));
    WellCollected(listed);
    line := Collect(listed).groups[KeyOf(e)];
    LinesAreGroups(events, consumerId, line);
  }

  lemma SameKeySameLine(events: seq<Event>, consumerId: string, g: Group, h: Group)
    requires g in Lines(events, consumerId) && h in Lines(events, consumerId) && GroupKey(g) == GroupKey(h)
    ensures g == h
  {
    LinesAreGroups(events, consumerId, g);
    LinesAreGroups(events, consumerId, h);
  }

  // ---------- the lines of a rearranged history ----------

  function Label(e: Event): string {
    e.resource + ":" + e.action
  }

  /** Two events for different pairs at one time, which the bill would have to show as one line or as two lines it
      cannot put in order. */
  ghost predicate Clash(x: Event, y: Event) {
    && x.occurredAt == y.occurredAt && !SamePair(y, x.resource, x.action)
    && (KeyOf(x) == KeyOf(y) || Label(x) == Label(y))
  }

  /** Two such events among the earliest under their keys. */
  ghost predicate Clashing(events: seq<Event>, consumerId: string) {
    exists x, y :: Earliest(events, consumerId, x) && Earliest(events, consumerId, y) && Clash(x, y)
  }

  lemma EarliestTied(events: seq<Event>, consumerId: string, x: Event, y: Event)
    requires Earliest(events, consumerId, x) && Earliest(events, consumerId, y) && KeyOf(x) == KeyOf(y)
    ensures x.occurredAt == y.occurredAt
  {
  }

  lemma LinePersists(a: seq<Event>, b: seq<Event>, consumerId: string, line: Group)
    requires multiset(a) == multiset(b) && !Clashing(a, consumerId) && line in Lines(a, consumerId)
    ensures line in Lines(b, consumerId)
  {
    SameElements(a, b);
    LineIsFirst(a, consumerId, line);
    var listed := Listed(a, OfConsumer(consumerId));
    var x := listed[FirstAt(listed, GroupKey(line))];
    var other := LineOfEvent(b, consumerId, x);
    LineIsFirst(b, consumerId, other);
    var relisted := Listed(b, OfConsumer(consumerId));
    var y := relisted[FirstAt(relisted, GroupKey(other))];
    assert Earliest(a, consumerId, y);
    EarliestTied(a, consumerId, x, y);
    assert !Clash(x, y);
    LineTotals(a, consumerId, line);
    LineTotals(b, consumerId, other);
    SumPermuted(a, b, Some(consumerId), Some(GroupKey(line)));
    assert other == line;
  }

  /** The first events under the one line's key are no later than those under the other's. */
  ghost predicate NoLater(events: seq<Event>, consumerId: string, g: Group, h: Group) {
    forall x, y | Earliest(events, consumerId, x) && Earliest(events, consumerId, y)
      && KeyOf(x) == GroupKey(g) && KeyOf(y) == GroupKey(h) :: x.occurredAt <= y.occurredAt
  }

  ghost function LineLeq(events: seq<Event>, consumerId: string): (Group, Group) -> bool {
    (g, h) => LabelLeq(g, h) && (LabelLeq(h, g) ==> NoLater(events, consumerId, g, h))
  }

  /** Where a group's first event stands in the listing of the consumer's events. */
  ghost function FirstOf(listed: seq<Event>): (Group, Group) -> bool {
    (g, h) => FirstAt(listed, GroupKey(g)) < FirstAt(listed, GroupKey(h))
  }

  /** Lines with one label come in the order of their first events. */
  lemma LinesStable(events: seq<Event>, consumerId: string)
    ensures StablySorted(Lines(events, consumerId), LabelLeq, FirstOf(Listed(events, OfConsumer(consumerId))))
  {
    var listed := Listed(events, OfConsumer(consumerId));
    var g := Collect(listed);
    WellCollected(listed);
    CollectOrders(listed);
    ListingMembers(g.order, g.groups);
    var listing := Listing(g.order, g.groups);
    forall i, j | 0 <= i < j < |listing| ensures FirstOf(listed)(listing[i], listing[j]) {
      assert g.order[i] in g.order && g.order[j] in g.order;
    }
    LabelOrder();
    SortStable(listing, LabelLeq, FirstOf(listed));
  }

  lemma FirstMeansNoLater(events: seq<Event>, consumerId: string, g: Group, h: Group)
    requires g in Lines(events, consumerId) && h in Lines(events, consumerId)
    requires FirstOf(Listed(events, OfConsumer(consumerId)))(g, h)
    ensures NoLater(events, consumerId, g, h)
  {
    var listed := Listed(events, OfConsumer(consumerId));
    LineIsFirst(events, consumerId, g);
    LineIsFirst(events, consumerId, h);
    ListedExactly(events, OfConsumer(consumerId));
    var x, y := listed[FirstAt(listed, GroupKey(g))], listed[FirstAt(listed, GroupKey(h))];
    assert TimeLeq(x, y);
    forall x', y' | Earliest(events, consumerId, x') && Earliest(events, consumerId, y')
        && KeyOf(x') == GroupKey(g) && KeyOf(y') == GroupKey(h)
      ensures x'.occurredAt <= y'.occurredAt
    {
      EarliestTied(events, consumerId, x, x');
      EarliestTied(events, consumerId, y, y');
    }
  }

  lemma LinesSorted(events: seq<Event>, consumerId: string)
    ensures Sorted(Lines(events, consumerId), LineLeq(events, consumerId))
  {
    var lines := Lines(events, consumerId);
    LinesStable(events, consumerId);
    forall i, j | 0 <= i < j < |lines| ensures LineLeq(events, consumerId)(lines[i], lines[j]) {
      if LabelLeq(lines[j], lines[i]) {
        FirstMeansNoLater(events, consumerId, lines[i], lines[j]);
      }
    }
  }

  lemma LinesTold(events: seq<Event>, consumerId: string, g: Group, h: Group)
    requires !Clashing(events, consumerId) && g in Lines(events, consumerId) && h in Lines(events, consumerId)
    requires LineLeq(events, consumerId)(g, h) && LineLeq(events, consumerId)(h, g)
    ensures g == h
  {
    var listed := Listed(events, OfConsumer(consumerId));
    LineIsFirst(events, consumerId, g);
    LineIsFirst(events, consumerId, h);
    var x, y := listed[FirstAt(listed, GroupKey(g))], listed[FirstAt(listed, GroupKey(h))];
    StrLeqAntisymmetric(Label(x), Label(y));
    assert x.occurredAt == y.occurredAt;
    assert !Clash(x, y);
    SameKeySameLine(events, consumerId, g, h);
  }

  lemma RearrangedLines(a: seq<Event>, b: seq<Event>, consumerId: string)
    requires multiset(a) == multiset(b) && !Clashing(a, consumerId)
    ensures multiset(Lines(a, consumerId)) == multiset(Lines(b, consumerId))
  {
    SameElements(a, b);
    forall e ensures Earliest(a, consumerId, e) <==> Earliest(b, consumerId, e) {
    }
    assert !Clashing(b, consumerId);
    LinesDistinct(a, consumerId);
    LinesDistinct(b, consumerId);
    forall line ensures line in Lines(a, consumerId) <==> line in Lines(b, consumerId) {
      if line in Lines(a, consumerId) {
        LinePersists(a, b, consumerId, line);
      }
      if line in Lines(b, consumerId) {
        LinePersists(b, a, consumerId, line);
      }
    }
    DistinctSameContents(Lines(a, consumerId), Lines(b, consumerId));
  }

  /** Without a clash a history bills the same in whatever order it is recorded. */
  lemma BilledAlike(a: seq<Event>, b: seq<Event>, consumerId: string)
    requires multiset(a) == multiset(b) && !Clashing(a, consumerId)
    ensures SummaryOf(a, consumerId) == SummaryOf(b, consumerId)
  {
    SameElements(a, b);
    LinesSorted(a, consumerId);
    LinesSorted(b, consumerId);
    forall g, h ensures LineLeq(a, consumerId)(g, h) <==> LineLeq(b, consumerId)(g, h) {
      assert forall e :: Earliest(a, consumerId, e) <==> Earliest(b, consumerId, e);
    }
    RearrangedLines(a, b, consumerId);
    forall g, h | g in Lines(a, consumerId) && h in Lines(a, consumerId)
        && LineLeq(a, consumerId)(g, h) && LineLeq(a, consumerId)(h, g)
      ensures g == h
    {
      LinesTold(a, consumerId, g, h);
    }
    SortedUnique(Lines(a, consumerId), Lines(b, consumerId), LineLeq(a, consumerId));
    TotalsOrderIrrelevant(a, b, consumerId, "");
  }

  // ---------- a clash shows ----------

  lemma {:induction false} InsertPosition(x: Event, events: seq<Event>) returns (p: nat)
    ensures p < |Insert(x, events, TimeLeq)| && Insert(x, events, TimeLeq)[p] == x
    ensures forall i | 0 <= i < p :: Insert(x, events, TimeLeq)[i].occurredAt < x.occurredAt
  {
    if events == [] || TimeLeq(x, events[0]) {
      p := 0;
    } else {
      var q := InsertPosition(x, events[1..]);
      p := q + 1;
      var rest := Insert(x, events[1..], TimeLeq);
      assert forall i | 1 <= i < |rest| + 1 :: ([events[0]] + rest)[i] == rest[i - 1];
    }
  }

  /** An event recorded first stands in the listing behind strictly earlier events only. */
  lemma ListedBehind(x: Event, rest: seq<Event>, consumerId: string) returns (p: nat)
    requires x.consumerId == consumerId
    ensures var listed := Listed([x] + rest, OfConsumer(consumerId));
      p < |listed| && listed[p] == x && forall i | 0 <= i < p :: listed[i].occurredAt < x.occurredAt
  {
    var events, kept := [x] + rest, Filter(rest, Matching(OfConsumer(consumerId)));
    assert events[1..] == rest;
    assert Filter(events, Matching(OfConsumer(consumerId))) == [x] + kept;
    assert ([x] + kept)[1..] == kept;
    p := InsertPosition(x, Sort(kept, TimeLeq));
  }

  lemma NoneBefore(events: seq<Event>, consumerId: string, e: Event, z: Event)
    requires e in Listed(events, OfConsumer(consumerId)) && Earliest(events, consumerId, z)
    requires e.occurredAt < z.occurredAt
    ensures KeyOf(e) != KeyOf(z)
  {
    ListedExactly(events, OfConsumer(consumerId));
    assert Monetization.Matches(OfConsumer(consumerId), e);
  }

  lemma FirstBehind(events: seq<Event>, p: nat, key: string)
    requires p <= |events| && forall i | 0 <= i < p :: KeyOf(events[i]) != key
    ensures p <= FirstAt(events, key)
    ensures p < |events| && KeyOf(events[p]) == key ==> FirstAt(events, key) == p
  {
    FirstAtExactly(events, key);
  }

  /** An earliest event that is recorded first is the first of the listing under its key, and none of another key at
      its time comes before it. */
  lemma RecordedFirst(x: Event, rest: seq<Event>, consumerId: string, z: Event)
    requires Earliest([x] + rest, consumerId, x) && Earliest([x] + rest, consumerId, z)
    requires z.occurredAt == x.occurredAt
    ensures var listed := Listed([x] + rest, OfConsumer(consumerId));
      var p := FirstAt(listed, KeyOf(x));
      p < |listed| && listed[p] == x && p <= FirstAt(listed, KeyOf(z))
  {
    var listed := Listed([x] + rest, OfConsumer(consumerId));
    var p := ListedBehind(x, rest, consumerId);
    forall i | 0 <= i < p ensures KeyOf(listed[i]) != KeyOf(x) && KeyOf(listed[i]) != KeyOf(z) {
      NoneBefore([x] + rest, consumerId, listed[i], x);
      NoneBefore([x] + rest, consumerId, listed[i], z);
    }
    FirstBehind(listed, p, KeyOf(x));
    FirstBehind(listed, p, KeyOf(z));
  }

  lemma RecordedFirstNames(x: Event, rest: seq<Event>, consumerId: string, line: Group)
    requires Earliest([x] + rest, consumerId, x)
    requires line in Lines([x] + rest, consumerId) && GroupKey(line) == KeyOf(x)
    ensures SamePair(x, line.resource, line.action)
  {
    RecordedFirst(x, rest, consumerId, x);
    LineIsFirst([x] + rest, consumerId, line);
  }

  lemma RecordedFirstLeads(x: Event, rest: seq<Event>, consumerId: string, y: Event, i: nat, j: nat)
    requires Earliest([x] + rest, consumerId, x) && Earliest([x] + rest, consumerId, y)
    requires x.occurredAt == y.occurredAt && KeyOf(x) != KeyOf(y)
    requires i < |Lines([x] + rest, consumerId)| && j < |Lines([x] + rest, consumerId)|
    requires var lines := Lines([x] + rest, consumerId);
      && GroupKey(lines[i]) == KeyOf(x) && GroupKey(lines[j]) == KeyOf(y) && LabelLeq(lines[i], lines[j])
    ensures i < j
  {
    RecordedFirst(x, rest, consumerId, y);
    LinesStable([x] + rest, consumerId);
    var lines := Lines([x] + rest, consumerId);
    assert !FirstOf(Listed([x] + rest, OfConsumer(consumerId)))(lines[j], lines[i]);
  }

  lemma EarliestAnywhere(a: seq<Event>, b: seq<Event>, consumerId: string, e: Event)
    requires multiset(a) == multiset(b) && Earliest(a, consumerId, e)
    ensures Earliest(b, consumerId, e)
  {
    SameElements(a, b);
  }

  /** One line for two pairs is named after whichever was recorded first. */
  lemma SharedLineShows(x: Event, first: seq<Event>, y: Event, second: seq<Event>, consumerId: string)
    requires multiset([x] + first) == multiset([y] + second)
    requires Earliest([x] + first, consumerId, x) && Earliest([x] + first, consumerId, y)
    requires Clash(x, y) && KeyOf(x) == KeyOf(y)
    ensures Lines([x] + first, consumerId) != Lines([y] + second, consumerId)
  {
    EarliestAnywhere([x] + first, [y] + second, consumerId, y);
    EarliestAnywhere([x] + first, [y] + second, consumerId, x);
    var g := LineOfEvent([x] + first, consumerId, x);
    var h := LineOfEvent([y] + second, consumerId, y);
    RecordedFirstNames(x, first, consumerId, g);
    RecordedFirstNames(y, second, consumerId, h);
    if h in Lines([x] + first, consumerId) {
      SameKeySameLine([x] + first, consumerId, g, h);
    }
  }

  /** The pairs behind an event's line, when no earliest event under its key is for another pair. */
  lemma LineNamed(events: seq<Event>, consumerId: string, x: Event, line: Group)
    requires Earliest(events, consumerId, x) && line in Lines(events, consumerId) && GroupKey(line) == KeyOf(x)
    requires forall z | Earliest(events, consumerId, z) && KeyOf(z) == KeyOf(x) :: SamePair(z, x.resource, x.action)
    ensures SamePair(x, line.resource, line.action)
  {
    LineIsFirst(events, consumerId, line);
  }

  /** Two lines with one label come in whichever order they were recorded. */
  lemma TiedLinesShow(x: Event, first: seq<Event>, y: Event, second: seq<Event>, consumerId: string)
    requires multiset([x] + first) == multiset([y] + second)
    requires Earliest([x] + first, consumerId, x) && Earliest([x] + first, consumerId, y)
    requires Clash(x, y) && KeyOf(x) != KeyOf(y)
    requires forall z | Earliest([x] + first, consumerId, z) && KeyOf(z) == KeyOf(x) ::
      SamePair(z, x.resource, x.action)
    requires forall z | Earliest([x] + first, consumerId, z) && KeyOf(z) == KeyOf(y) ::
      SamePair(z, y.resource, y.action)
    ensures Lines([x] + first, consumerId) != Lines([y] + second, consumerId)
  {
    var lines := Lines([x] + first, consumerId);
    EarliestAnywhere([x] + first, [y] + second, consumerId, y);
    EarliestAnywhere([x] + first, [y] + second, consumerId, x);
    var g := LineOfEvent([x] + first, consumerId, x);
    var h := LineOfEvent([x] + first, consumerId, y);
    LineNamed([x] + first, consumerId, x, g);
    LineNamed([x] + first, consumerId, y, h);
    StrLeqTotal(Label(x), Label(y));
    var i :| 0 <= i < |lines| && lines[i] == g;
    var j :| 0 <= j < |lines| && lines[j] == h;
    RecordedFirstLeads(x, first, consumerId, y, i, j);
    if lines == Lines([y] + second, consumerId) {
      RecordedFirstLeads(y, second, consumerId, x, j, i);
    }
  }

  lemma Fronted(events: seq<Event>, x: Event) returns (rest: seq<Event>)
    requires x in events
    ensures multiset([x] + rest) == multiset(events)
  {
    var k :| 0 <= k < |events| && events[k] == x;
    rest := events[..k] + events[k + 1..];
    assert events == events[..k] + [events[k]] + events[k + 1..];
  }

  lemma ClashShows(events: seq<Event>, consumerId: string) returns (a: seq<Event>, b: seq<Event>)
    requires Clashing(events, consumerId)
    ensures multiset(a) == multiset(events) == multiset(b)
    ensures SummaryOf(a, consumerId) != SummaryOf(b, consumerId)
  {
    var x, y :| Earliest(events, consumerId, x) && Earliest(events, consumerId, y) && Clash(x, y);
    if z :| Earliest(events, consumerId, z) && KeyOf(z) == KeyOf(x) && !SamePair(z, x.resource, x.action) {
      y := z;
    } else if z :| Earliest(events, consumerId, z) && KeyOf(z) == KeyOf(y) && !SamePair(z, y.resource, y.action) {
      x := z;
    }
    var first := Fronted(events, x);
    var second := Fronted(events, y);
    a, b := [x] + first, [y] + second;
    forall z ensures Earliest(events, consumerId, z) <==> Earliest(a, consumerId, z) {
      SameElements(events, a);
    }
    if KeyOf(x) == KeyOf(y) {
      EarliestTied(events, consumerId, x, y);
      SharedLineShows(x, first, y, second, consumerId);
    } else {
      TiedLinesShow(x, first, y, second, consumerId);
    }
  }

  /** A bill is the same for every order of recording exactly when no two of the earliest events under their keys are
      for different pairs at one time and either share a key or share a label. */
  lemma OrderIrrelevantIff(events: seq<Event>, consumerId: string)
    ensures (forall other | multiset(other) == multiset(events) ::
               SummaryOf(other, consumerId) == SummaryOf(events, consumerId))
       <==> !Clashing(events, consumerId)
  {
    if Clashing(events, consumerId) {
      var a, b := ClashShows(events, consumerId);
      assert SummaryOf(a, consumerId) != SummaryOf(events, consumerId)
          || SummaryOf(b, consumerId) != SummaryOf(events, consumerId);
    } else {
      forall other | multiset(other) == multiset(events)
        ensures SummaryOf(other, consumerId) == SummaryOf(events, consumerId)
      {
        BilledAlike(events, other, consumerId);
      }
    }
  }

  lemma PlainLabel(r: string, a: string, r': string, a': string)
    requires ':' !in r && ':' !in r' && r + ":" + a == r' + ":" + a'
    ensures r == r' && a == a'
  {
    var l := r + ":" + a;
    assert l[|r|] == ':' && l[|r'|] == ':';
    assert forall i | 0 <= i < |r| :: l[i] == r[i];
    assert forall i | 0 <= i < |r'| :: l[i] == r'[i];
    assert |r| == |r'|;
    assert r == l[..|r|] == r' && a == l[|r| + 1..] == a';
  }

  /** With colon-free resources the order of recording never shows. */
  lemma PlainResourcesOrderIrrelevant(events: seq<Event>, other: seq<Event>, consumerId: string)
    requires forall e | e in events && e.consumerId == consumerId :: ':' !in e.resource
    requires multiset(other) == multiset(events)
    ensures SummaryOf(other, consumerId) == SummaryOf(events, consumerId)
  {
    forall x, y | Earliest(events, consumerId, x) && Earliest(events, consumerId, y) ensures !Clash(x, y) {
      PairKeyInjective(x.resource, x.action, y.resource, y.action);
      if Label(x) == Label(y) {
        PlainLabel(x.resource, x.action, y.resource, y.action);
      }
    }
    OrderIrrelevantIff(events, consumerId);
  }

  // ---------- instances ----------

  function OneUse(resource: string, action: string): Event {
    Event("e", "c", resource, action, 1.0, 1.0, 1, 0, None)
  }

  /** Two pairs with colons under one key: one line charges both, and it is named after the one recorded first. */
  lemma ColonsMergeLines()
    ensures var x, y := OneUse("a", ":b"), OneUse("a:", "b");
      && Clashing([x, y], "c")
      && exists line :: line in Lines([x, y], "c") && line.totals != PairSum([x, y], "c", line.resource, line.action)
  {
    var x, y := OneUse("a", ":b"), OneUse("a:", "b");
    var events := [x, y];
    assert "a" + "::" + ":b" == "a:::b" == "a:" + "::" + "b";
    assert "a" != "a:" by { assert |"a"| != |"a:"|; }
    assert x in events && y in events;
    assert Earliest(events, "c", x) && Earliest(events, "c", y) && Clash(x, y);
    var line := LineOfEvent(events, "c", x);
    LineIsFirst(events, "c", line);
    LineIsPairIff(events, "c", line);
    var key := PairKey(line.resource, line.action);
    assert Billable(x, "c", key) && Billable(y, "c", key);
    assert !SamePair(x, line.resource, line.action) || !SamePair(y, line.resource, line.action);
  }

  /** The line of the one event stands before that of the other. */
  ghost predicate Before(events: seq<Event>, consumerId: string, x: Event, y: Event) {
    var lines := Lines(events, consumerId);
    exists i, j | 0 <= i < j < |lines| ::
      SamePair(x, lines[i].resource, lines[i].action) && SamePair(y, lines[j].resource, lines[j].action)
  }

  /** Two pairs whose lines have one label: which comes first is the order of recording. */
  lemma LabelsTie()
    ensures var x, y := OneUse("r", "q:a"), OneUse("r:q", "a");
      && Clashing([x, y], "c")
      && Before([x, y], "c", x, y) && Before([y, x], "c", y, x)
      && SummaryOf([x, y], "c") != SummaryOf([y, x], "c")
  {
    var x, y := OneUse("r", "q:a"), OneUse("r:q", "a");
    assert "r" + ":" + "q:a" == "r:q:a" == "r:q" + ":" + "a";
    assert "r" != "r:q" by { assert |"r"| != |"r:q"|; }
    var k, l := KeyOf(x), KeyOf(y);
    assert k == "r::q:a" && l == "r:q::a";
    TieShows(x, y, "c");
  }

  lemma TieShows(x: Event, y: Event, consumerId: string)
    requires x.consumerId == y.consumerId == consumerId && Clash(x, y) && KeyOf(x) != KeyOf(y)
    ensures Clashing([x, y], consumerId)
    ensures Before([x, y], consumerId, x, y) && Before([y, x], consumerId, y, x)
    ensures SummaryOf([x, y], consumerId) != SummaryOf([y, x], consumerId)
  {
    assert Clash(y, x);
    TieOfTwo(x, y, consumerId);
    TieOfTwo(y, x, consumerId);
    TiedLinesShow(x, [y], y, [x], consumerId);
  }

  lemma EarliestOfTwo(x: Event, y: Event, consumerId: string)
    requires x.consumerId == y.consumerId == consumerId && x.occurredAt == y.occurredAt
    ensures Earliest([x, y], consumerId, x) && Earliest([x, y], consumerId, y)
  {
  }

  /** Of two clashing events under different keys, the one recorded first has its line first. */
  lemma TieOfTwo(x: Event, y: Event, consumerId: string)
    requires x.consumerId == y.consumerId == consumerId && Clash(x, y) && KeyOf(x) != KeyOf(y)
    ensures Earliest([x, y], consumerId, x) && Earliest([x, y], consumerId, y)
    ensures Before([x, y], consumerId, x, y)
    ensures multiset([x] + [y]) == multiset([y] + [x]) && [x] + [y] == [x, y]
  {
    assert [x] + [y] == [x, y] && x in [x, y] && y in [x, y];
    EarliestOfTwo(x, y, consumerId);
    var lines := Lines([x, y], consumerId);
    var g := LineOfEvent([x, y], consumerId, x);
    var h := LineOfEvent([x, y], consumerId, y);
    LineNamed([x, y], consumerId, x, g);
    LineNamed([x, y], consumerId, y, h);
    StrLeqTotal(Label(x), Label(y));
    var i :| 0 <= i < |lines| && lines[i] == g;
    var j :| 0 <= j < |lines| && lines[j] == h;
    RecordedFirstLeads(x, [y], consumerId, y, i, j);
  }
}
