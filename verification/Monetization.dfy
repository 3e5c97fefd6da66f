/** Usage billing: priced events, queries over them, and the summary a consumer is billed from. */
module Monetization {
  import opened Options
  import opened Sorting
  import opened Text

  // ---------- money ----------

  /** Money is kept in millionths of a currency unit. */
  const MICROS := 1000000.0

  function Amount(micros: int): real {
    micros as real / MICROS
  }

  /** `Number(value.toFixed(6))`: the nearest millionth, halves away from zero. */
  function RoundMoney(value: real): int {
    if value < 0.0 then -(-value * MICROS + 0.5).Floor else (value * MICROS + 0.5).Floor
  }

  /** Rounding a sum of two rounded amounts loses nothing. */
  lemma RoundedSum(a: int, b: int)
    ensures RoundMoney(Amount(a) + Amount(b)) == a + b
  {
    var sum := Amount(a) + Amount(b);
    assert sum * MICROS == (a + b) as real;
    FloorOfHalf(a + b);
    FloorOfHalf(-(a + b));
    assert -sum * MICROS == (-(a + b)) as real;
  }

  lemma FloorOfHalf(n: int)
    ensures (n as real + 0.5).Floor == n
  {
  }

  // ---------- billed events ----------

  datatype PricingRule = PricingRule(resource: string, action: string, unitPrice: real)

  datatype Usage = Usage(
    consumerId: string, resource: string, action: string, quantity: real, occurredAt: int, auditEventId: Option<string>)

  datatype Event = Event(
    eventId: string,
    consumerId: string,
    resource: string,
    action: string,
    unitPrice: real,
    quantity: real,
    totalPrice: int,
    occurredAt: int,
    auditEventId: Option<string>)

  function Zeros(n: nat): string {
    seq(n, i => '0')
  }

  /** `String(n).padStart(8, '0')` behind the prefix. */
  function EventId(n: nat): string {
    "billable_" + Padded(n)
  }

  function Padded(n: nat): string {
    var digits := Decimal(n);
    if |digits| >= 8 then digits else Zeros(8 - |digits|) + digits
  }

  function Billed(n: nat, usage: Usage, rule: PricingRule): Event {
    Event(EventId(n), usage.consumerId, usage.resource, usage.action, rule.unitPrice, usage.quantity,
          RoundMoney(rule.unitPrice * usage.quantity), usage.occurredAt, usage.auditEventId)
  }

  /** The rule given with the usage, or else the registered one. */
  function RuleFor(rules: map<string, PricingRule>, usage: Usage, given: Option<PricingRule>): Option<PricingRule> {
    var key := PairKey(usage.resource, usage.action);
    if given.Some? then given else if key in rules then Some(rules[key]) else None
  }

  lemma {:induction false} DecimalHead(n: nat)
    requires n > 0
    ensures Decimal(n)[0] != '0'
  {
    if n >= 10 {
      DecimalHead(n / 10);
    }
  }

  lemma PaddedInjective(m: nat, n: nat)
    requires 0 < m && 0 < n && Padded(m) == Padded(n)
    ensures m == n
  {
    var a, b, p := Decimal(m), Decimal(n), Padded(m);
    DecimalHead(m);
    DecimalHead(n);
    if |a| == |b| {
      assert a == p[|p| - |a|..] && b == p[|p| - |b|..];
      DecimalInjective(m, n);
    } else {
      PaddedFirst(m);
      PaddedFirst(n);
    }
  }

  /** The first digit that is not zero tells how many digits follow. */
  lemma PaddedFirst(n: nat)
    requires 0 < n
    ensures var p, k := Padded(n), |Padded(n)| - |Decimal(n)|;
      && |p| == (if |Decimal(n)| < 8 then 8 else |Decimal(n)|)
      && p[k] != '0' && forall i | 0 <= i < k :: p[i] == '0'
  {
    DecimalHead(n);
  }

  ghost predicate NumberedEvents(events: seq<Event>) {
    forall i | 0 <= i < |events| :: events[i].eventId == EventId(i + 1)
  }

  /** Event ids never repeat, also past the padded width. */
  lemma EventIdsDistinct(events: seq<Event>)
    requires NumberedEvents(events)
    ensures forall i, j | 0 <= i < j < |events| :: events[i].eventId != events[j].eventId
  {
    forall i, j | 0 <= i < j < |events| ensures events[i].eventId != events[j].eventId {
      if events[i].eventId == events[j].eventId {
        assert EventId(i + 1)[|"billable_"|..] == Padded(i + 1);
        assert EventId(j + 1)[|"billable_"|..] == Padded(j + 1);
        PaddedInjective(i + 1, j + 1);
      }
    }
  }

  // ---------- queries ----------

  datatype Query = Query(
    consumerId: Option<string>, resource: Option<string>, action: Option<string>, from: Option<int>, to: Option<int>)

  predicate Matches(q: Query, e: Event) {
    && (q.consumerId.Some? ==> e.consumerId == q.consumerId.value)
    && (q.resource.Some? ==> e.resource == q.resource.value)
    && (q.action.Some? ==> e.action == q.action.value)
    && (q.from.Some? ==> q.from.value <= e.occurredAt)
    && (q.to.Some? ==> e.occurredAt <= q.to.value)
  }

  function Matching(q: Query): Event -> bool {
    e => Matches(q, e)
  }

  predicate TimeLeq(a: Event, b: Event) {
    a.occurredAt <= b.occurredAt
  }

  function Listed(events: seq<Event>, q: Query): seq<Event> {
    Sort(Filter(events, Matching(q)), TimeLeq)
  }

  ghost predicate RecordedBefore(events: seq<Event>, a: Event, b: Event) {
    exists i, j | 0 <= i < j < |events| :: events[i] == a && events[j] == b
  }

  lemma {:induction false} FilterKeepsOrder(events: seq<Event>, keep: Event -> bool)
    ensures Sorted(Filter(events, keep), (a, b) => RecordedBefore(events, a, b))
  {
    if events != [] {
      var rest, kept := events[1..], Filter(events[1..], keep);
      FilterKeepsOrder(rest, keep);
      FilterMembers(rest, keep);
      forall i, j | 0 <= i < j < |kept| ensures RecordedBefore(events, kept[i], kept[j]) {
        LaterInWhole(events, kept[i], kept[j]);
      }
      forall j | 0 <= j < |kept| ensures RecordedBefore(events, events[0], kept[j]) {
        assert kept[j] in rest;
        var at :| 0 <= at < |rest| && rest[at] == kept[j];
        assert events[0] == events[0] && events[at + 1] == kept[j];
      }
    }
  }

  lemma LaterInWhole(events: seq<Event>, a: Event, b: Event)
    requires events != [] && RecordedBefore(events[1..], a, b)
    ensures RecordedBefore(events, a, b)
  {
    var i, j :| 0 <= i < j < |events[1..]| && events[1..][i] == a && events[1..][j] == b;
    assert events[i + 1] == a && events[j + 1] == b;
  }

  /** A query lists each matching event as often as it was recorded, in time order and, at equal times, in the
      order of recording. */
  lemma ListedExactly(events: seq<Event>, q: Query)
    ensures multiset(Listed(events, q)) == multiset(Filter(events, Matching(q)))
    ensures forall e :: e in Listed(events, q) <==>
      && e in events
      && (q.consumerId.Some? ==> e.consumerId == q.consumerId.value)
      && (q.resource.Some? ==> e.resource == q.resource.value) && (q.action.Some? ==> e.action == q.action.value)
      && (q.from.Some? ==> q.from.value <= e.occurredAt) && (q.to.Some? ==> e.occurredAt <= q.to.value)
    ensures StablySorted(Listed(events, q), TimeLeq, (a, b) => RecordedBefore(events, a, b))
  {
    var kept := Filter(events, Matching(q));
    FilterMembers(events, Matching(q));
    FilterKeepsOrder(events, Matching(q));
    SortCorrect(kept, TimeLeq);
    SortMembers(kept, TimeLeq);
    SortStable(kept, TimeLeq, (a, b) => RecordedBefore(events, a, b));
  }

  // ---------- totals ----------

  datatype Totals = Totals(quantity: real, price: int, count: nat)

  function Zero(): Totals {
    Totals(0.0, 0, 0)
  }

  function Plus(a: Totals, b: Totals): Totals {
    Totals(a.quantity + b.quantity, a.price + b.price, a.count + b.count)
  }

  lemma PlusZero(t: Totals)
    ensures Plus(Zero(), t) == t == Plus(t, Zero())
  {
  }

  function Of(e: Event): Totals {
    Totals(e.quantity, e.totalPrice, 1)
  }

  function KeyOf(e: Event): string {
    PairKey(e.resource, e.action)
  }

  predicate Concerns(e: Event, consumerId: Option<string>, key: Option<string>) {
    (consumerId.Some? ==> e.consumerId == consumerId.value) && (key.Some? ==> KeyOf(e) == key.value)
  }

  /** What one event adds to the bill of a consumer (of everyone, when None) under a key (under all, when None). */
  function Share(e: Event, consumerId: Option<string>, key: Option<string>): Totals {
    var counts := Concerns(e, consumerId, key);
    Totals(if counts then e.quantity else 0.0, if counts then e.totalPrice else 0, if counts then 1 else 0)
  }

  function Sum(events: seq<Event>, consumerId: Option<string>, key: Option<string>): Totals {
    if events == [] then Zero() else Plus(Share(events[0], consumerId, key), Sum(events[1..], consumerId, key))
  }

  lemma {:induction false} SumSnoc(events: seq<Event>, e: Event, consumerId: Option<string>, key: Option<string>)
    ensures Sum(events + [e], consumerId, key) == Plus(Sum(events, consumerId, key), Share(e, consumerId, key))
  {
    if events == [] {
      assert events + [e] == [e];
    } else {
      assert (events + [e])[1..] == events[1..] + [e];
      SumSnoc(events[1..], e, consumerId, key);
    }
  }

  lemma PlusSwaps(a: Totals, b: Totals, c: Totals)
    ensures Plus(a, Plus(b, c)) == Plus(b, Plus(a, c))
  {
  }

  lemma {:induction false} SumInsert(e: Event, events: seq<Event>, consumerId: Option<string>, key: Option<string>)
    ensures Sum(Insert(e, events, TimeLeq), consumerId, key)
         == Plus(Share(e, consumerId, key), Sum(events, consumerId, key))
  {
    if events == [] || TimeLeq(e, events[0]) {
      SumCons(e, events, consumerId, key);
    } else {
      var first, rest := events[0], Insert(e, events[1..], TimeLeq);
      SumInsert(e, events[1..], consumerId, key);
      SumCons(first, rest, consumerId, key);
      PlusSwaps(Share(first, consumerId, key), Share(e, consumerId, key), Sum(events[1..], consumerId, key));
    }
  }

  lemma {:induction false} SumSorted(events: seq<Event>, consumerId: Option<string>, key: Option<string>)
    ensures Sum(Sort(events, TimeLeq), consumerId, key) == Sum(events, consumerId, key)
  {
    if events != [] {
      SumSorted(events[1..], consumerId, key);
      SumInsert(events[0], Sort(events[1..], TimeLeq), consumerId, key);
    }
  }

  function OfConsumer(consumerId: string): Query {
    Query(Some(consumerId), None, None, None, None)
  }

  lemma ShareOfConsumer(e: Event, consumerId: string, key: Option<string>)
    ensures e.consumerId == consumerId ==> Share(e, Some(consumerId), key) == Share(e, None, key)
    ensures e.consumerId != consumerId ==> Share(e, Some(consumerId), key) == Zero()
  {
  }

  lemma SumCons(e: Event, events: seq<Event>, consumerId: Option<string>, key: Option<string>)
    ensures Sum([e] + events, consumerId, key) == Plus(Share(e, consumerId, key), Sum(events, consumerId, key))
  {
    assert ([e] + events)[1..] == events;
  }

  lemma {:induction false} SumFiltered(events: seq<Event>, consumerId: string, key: Option<string>)
    ensures Sum(Filter(events, Matching(OfConsumer(consumerId))), None, key) == Sum(events, Some(consumerId), key)
  {
    if events != [] {
      var e, kept := events[0], Filter(events[1..], Matching(OfConsumer(consumerId)));
      SumFiltered(events[1..], consumerId, key);
      ShareOfConsumer(e, consumerId, key);
      if e.consumerId == consumerId {
        SumCons(e, kept, None, key);
      } else {
        PlusZero(Sum(kept, None, key));
      }
    }
  }

  lemma SumListed(events: seq<Event>, consumerId: string, key: Option<string>)
    ensures Sum(Listed(events, OfConsumer(consumerId)), None, key) == Sum(events, Some(consumerId), key)
  {
    SumSorted(Filter(events, Matching(OfConsumer(consumerId))), None, key);
    SumFiltered(events, consumerId, key);
  }

  lemma {:induction false} CountAll(events: seq<Event>)
    ensures Sum(events, None, None).count == |events|
  {
    if events != [] {
      CountAll(events[1..]);
    }
  }

  // ---------- grouping ----------

  datatype Group = Group(resource: string, action: string, totals: Totals)

  function GroupKey(g: Group): string {
    PairKey(g.resource, g.action)
  }

  /** An insertion-ordered map: its keys in the order they were first set, and its values. */
  datatype Grouping = Grouping(order: seq<string>, groups: map<string, Group>)

  function AddEvent(g: Grouping, e: Event): Grouping {
    var key := KeyOf(e);
    if key in g.groups then
      var existing := g.groups[key];
      Grouping(g.order, g.groups[key := existing.(totals := Plus(existing.totals, Of(e)))])
    else
      Grouping(g.order + [key], g.groups[key := Group(e.resource, e.action, Of(e))])
  }

  function Collect(events: seq<Event>): Grouping {
    if events == [] then Grouping([], map[]) else AddEvent(Collect(events[..|events| - 1]), events[|events| - 1])
  }

  lemma CollectNext(events: seq<Event>, i: nat)
    requires i < |events|
    ensures Collect(events[..i + 1]) == AddEvent(Collect(events[..i]), events[i])
  {
    assert events[..i + 1][..i] == events[..i];
  }

  ghost predicate WellGrouped(g: Grouping) {
    && Distinct(g.order)
    && (forall k :: k in g.order <==> k in g.groups)
    && (forall k | k in g.groups :: GroupKey(g.groups[k]) == k)
  }

  /** `[...grouped.values()]` */
  function Listing(order: seq<string>, groups: map<string, Group>): seq<Group>
    requires forall k | k in order :: k in groups
  {
    if order == [] then [] else [groups[order[0]]] + Listing(order[1..], groups)
  }

  function SumGroups(groups: seq<Group>): Totals {
    if groups == [] then Zero() else Plus(groups[0].totals, SumGroups(groups[1..]))
  }

  lemma {:induction false} ListingSnoc(order: seq<string>, groups: map<string, Group>, key: string, g: Group)
    requires (forall k | k in order :: k in groups) && key !in order
    ensures Listing(order + [key], groups[key := g]) == Listing(order, groups) + [g]
  {
    if order == [] {
      assert order + [key] == [key];
    } else {
      assert (order + [key])[1..] == order[1..] + [key];
      ListingSnoc(order[1..], groups, key, g);
    }
  }

  lemma {:induction false} ListingUnmoved(order: seq<string>, groups: map<string, Group>, key: string, g: Group)
    requires (forall k | k in order :: k in groups) && key !in order
    ensures Listing(order, groups[key := g]) == Listing(order, groups)
  {
    if order != [] {
      ListingUnmoved(order[1..], groups, key, g);
    }
  }

  lemma {:induction false} SumGroupsSnoc(groups: seq<Group>, g: Group)
    ensures SumGroups(groups + [g]) == Plus(SumGroups(groups), g.totals)
  {
    if groups == [] {
      assert groups + [g] == [g];
    } else {
      assert (groups + [g])[1..] == groups[1..] + [g];
      SumGroupsSnoc(groups[1..], g);
    }
  }

  lemma {:induction false} SumGroupsRaised(order: seq<string>, groups: map<string, Group>, key: string, more: Totals)
    requires Distinct(order) && (forall k | k in order :: k in groups) && key in order
    ensures var raised := groups[key := groups[key].(totals := Plus(groups[key].totals, more))];
      SumGroups(Listing(order, raised)) == Plus(SumGroups(Listing(order, groups)), more)
  {
    var g := groups[key].(totals := Plus(groups[key].totals, more));
    if order[0] == key {
      ListingUnmoved(order[1..], groups, key, g);
    } else {
      assert key in order[1..];
      SumGroupsRaised(order[1..], groups, key, more);
    }
  }

  function SumAll(g: Grouping): Totals
    requires WellGrouped(g)
  {
    SumGroups(Listing(g.order, g.groups))
  }

  lemma AddConserves(g: Grouping, e: Event)
    requires WellGrouped(g)
    ensures WellGrouped(AddEvent(g, e)) && SumAll(AddEvent(g, e)) == Plus(SumAll(g), Of(e))
  {
    var key := KeyOf(e);
    if key in g.groups {
      SumGroupsRaised(g.order, g.groups, key, Of(e));
    } else {
      var added := Group(e.resource, e.action, Of(e));
      ListingSnoc(g.order, g.groups, key, added);
      SumGroupsSnoc(Listing(g.order, g.groups), added);
    }
  }

  lemma SumLast(events: seq<Event>, key: Option<string>)
    requires events != []
    ensures Sum(events, None, key)
         == Plus(Sum(events[..|events| - 1], None, key), Share(events[|events| - 1], None, key))
  {
    assert events == events[..|events| - 1] + [events[|events| - 1]];
    SumSnoc(events[..|events| - 1], events[|events| - 1], None, key);
  }

  /** Grouping neither loses nor doubles anything. */
  lemma {:induction false} CollectConserves(events: seq<Event>)
    ensures WellGrouped(Collect(events))
    ensures SumAll(Collect(events)) == Sum(events, None, None)
  {
    if events != [] {
      CollectConserves(events[..|events| - 1]);
      AddConserves(Collect(events[..|events| - 1]), events[|events| - 1]);
      SumLast(events, None);
    }
  }

  function GroupTotals(g: Grouping, key: string): Totals {
    if key in g.groups then g.groups[key].totals else Zero()
  }

  lemma AddHere(g: Grouping, e: Event)
    ensures GroupTotals(AddEvent(g, e), KeyOf(e)) == Plus(GroupTotals(g, KeyOf(e)), Of(e))
  {
    PlusZero(Of(e));
  }

  lemma AddElsewhere(g: Grouping, e: Event, key: string)
    requires KeyOf(e) != key
    ensures GroupTotals(AddEvent(g, e), key) == GroupTotals(g, key)
  {
  }

  lemma ShareOfKey(e: Event, key: string)
    ensures KeyOf(e) == key ==> Share(e, None, Some(key)) == Of(e)
    ensures KeyOf(e) != key ==> Share(e, None, Some(key)) == Zero()
  {
  }

  /** A group holds exactly the events under its key. */
  lemma {:induction false} CollectByKey(events: seq<Event>, key: string)
    ensures GroupTotals(Collect(events), key) == Sum(events, None, Some(key))
  {
    if events != [] {
      var g, e := Collect(events[..|events| - 1]), events[|events| - 1];
      CollectByKey(events[..|events| - 1], key);
      SumLast(events, Some(key));
      ShareOfKey(e, key);
      PlusZero(GroupTotals(g, key));
      if KeyOf(e) == key {
        AddHere(g, e);
      } else {
        AddElsewhere(g, e, key);
      }
    }
  }

  lemma {:induction false} CollectCounted(events: seq<Event>, key: string)
    ensures var g := Collect(events).groups; key in g ==> g[key].totals.count > 0
  {
    if events != [] {
      CollectCounted(events[..|events| - 1], key);
    }
  }

  // ---------- summaries ----------

  datatype Summary = Summary(consumerId: string, totals: Totals, byResourceAction: seq<Group>)

  predicate LabelLeq(a: Group, b: Group) {
    StrLeq(a.resource + ":" + a.action, b.resource + ":" + b.action)
  }

  lemma LabelOrder()
    ensures TotalPreorder(LabelLeq)
  {
    forall a, b ensures LabelLeq(a, b) || LabelLeq(b, a) {
      StrLeqTotal(a.resource + ":" + a.action, b.resource + ":" + b.action);
    }
    forall a, b, c | LabelLeq(a, b) && LabelLeq(b, c) ensures LabelLeq(a, c) {
      StrLeqTransitive(a.resource + ":" + a.action, b.resource + ":" + b.action, c.resource + ":" + c.action);
    }
  }

  function GroupsOf(g: Grouping): seq<Group>
    requires forall k | k in g.order :: k in g.groups
  {
    Sort(Listing(g.order, g.groups), LabelLeq)
  }

  /** What a consumer's summary says of one key: the totals of its group, nothing if there is none. */
  function TotalsAt(groups: seq<Group>, key: string): Totals {
    if groups == [] then Zero()
    else if GroupKey(groups[0]) == key then Plus(groups[0].totals, TotalsAt(groups[1..], key))
    else TotalsAt(groups[1..], key)
  }

  lemma {:induction false} InsertGroup(g: Group, groups: seq<Group>, key: string)
    ensures SumGroups(Insert(g, groups, LabelLeq)) == Plus(g.totals, SumGroups(groups))
    ensures TotalsAt(Insert(g, groups, LabelLeq), key)
         == if GroupKey(g) == key then Plus(g.totals, TotalsAt(groups, key)) else TotalsAt(groups, key)
  {
    if groups == [] || LabelLeq(g, groups[0]) {
      assert ([g] + groups)[1..] == groups;
    } else {
      var rest := Insert(g, groups[1..], LabelLeq);
      assert ([groups[0]] + rest)[1..] == rest;
      InsertGroup(g, groups[1..], key);
    }
  }

  lemma {:induction false} SortGroups(groups: seq<Group>, key: string)
    ensures SumGroups(Sort(groups, LabelLeq)) == SumGroups(groups)
    ensures TotalsAt(Sort(groups, LabelLeq), key) == TotalsAt(groups, key)
  {
    if groups != [] {
      SortGroups(groups[1..], key);
      InsertGroup(groups[0], Sort(groups[1..], LabelLeq), key);
    }
  }

  lemma {:induction false} ListingAt(order: seq<string>, groups: map<string, Group>, key: string)
    requires Distinct(order) && (forall k | k in order :: k in groups && GroupKey(groups[k]) == k)
    ensures TotalsAt(Listing(order, groups), key) == if key in order then groups[key].totals else Zero()
  {
    if order != [] {
      ListingAt(order[1..], groups, key);
      assert order == [order[0]] + order[1..];
    }
  }

  /** The summary as a function of what was recorded. */
  function SummaryOf(events: seq<Event>, consumerId: string): Summary {
    var listed := Listed(events, OfConsumer(consumerId));
    var g := Collect(listed);
    CollectConserves(listed);
    Summary(consumerId, SumGroups(GroupsOf(g)).(count := |listed|), GroupsOf(g))
  }

  /** A summary's totals are the consumer's event totals, and its line under each key the totals of the consumer's
      events under that key. */
  lemma SummaryConserves(events: seq<Event>, consumerId: string, key: string)
    ensures var s := SummaryOf(events, consumerId);
      && s.consumerId == consumerId
      && s.totals == Sum(events, Some(consumerId), None) == SumGroups(s.byResourceAction)
      && TotalsAt(s.byResourceAction, key) == Sum(events, Some(consumerId), Some(key))
  {
    var listed := Listed(events, OfConsumer(consumerId));
    var g := Collect(listed);
    CollectConserves(listed);
    CollectByKey(listed, key);
    SortGroups(Listing(g.order, g.groups), key);
    ListingAt(g.order, g.groups, key);
    SumListed(events, consumerId, None);
    SumListed(events, consumerId, Some(key));
    CountAll(listed);
  }

  /** One line per key, in label order. */
  lemma LinesDistinct(events: seq<Event>, consumerId: string)
    ensures var groups := SummaryOf(events, consumerId).byResourceAction;
      && Sorted(groups, LabelLeq)
      && forall i, j | 0 <= i < j < |groups| :: GroupKey(groups[i]) != GroupKey(groups[j])
  {
    var g := Collect(Listed(events, OfConsumer(consumerId)));
    CollectConserves(Listed(events, OfConsumer(consumerId)));
    var listing := Listing(g.order, g.groups);
    LabelOrder();
    SortCorrect(listing, LabelLeq);
    ListingMembers(g.order, g.groups);
    KeysDistinct(listing, GroupsOf(g));
  }

  /** The lines are the groups of the consumer's events. */
  lemma LinesAreGroups(events: seq<Event>, consumerId: string, line: Group)
    ensures var groups := Collect(Listed(events, OfConsumer(consumerId))).groups;
      line in SummaryOf(events, consumerId).byResourceAction
      <==> GroupKey(line) in groups && groups[GroupKey(line)] == line
  {
    var g := Collect(Listed(events, OfConsumer(consumerId)));
    CollectConserves(Listed(events, OfConsumer(consumerId)));
    ListingMembers(g.order, g.groups);
    LabelOrder();
    SortMembers(Listing(g.order, g.groups), LabelLeq);
    if GroupKey(line) in g.groups && g.groups[GroupKey(line)] == line {
      var i :| 0 <= i < |g.order| && g.order[i] == GroupKey(line);
      assert Listing(g.order, g.groups)[i] == line;
    }
  }

  /** What a line charges is what the consumer's events under its key add up to, and that is never nothing. */
  lemma LineTotals(events: seq<Event>, consumerId: string, line: Group)
    requires line in SummaryOf(events, consumerId).byResourceAction
    ensures line.totals == Sum(events, Some(consumerId), Some(GroupKey(line))) && line.totals.count > 0
  {
    var listed := Listed(events, OfConsumer(consumerId));
    LinesAreGroups(events, consumerId, line);
    CollectByKey(listed, GroupKey(line));
    CollectCounted(listed, GroupKey(line));
    SumListed(events, consumerId, Some(GroupKey(line)));
  }

  lemma {:induction false} ListingMembers(order: seq<string>, groups: map<string, Group>)
    requires Distinct(order) && forall k | k in order :: k in groups && GroupKey(groups[k]) == k
    ensures |Listing(order, groups)| == |order|
    ensures forall i | 0 <= i < |order| :: Listing(order, groups)[i] == groups[order[i]]
    ensures forall x | x in Listing(order, groups) :: GroupKey(x) in order && groups[GroupKey(x)] == x
  {
    if order != [] {
      ListingMembers(order[1..], groups);
    }
  }

  /** Rearranging keeps keys distinct. */
  lemma KeysDistinct(a: seq<Group>, b: seq<Group>)
    requires multiset(a) == multiset(b)
    requires forall i, j | 0 <= i < j < |a| :: GroupKey(a[i]) != GroupKey(a[j])
    ensures forall i, j | 0 <= i < j < |b| :: GroupKey(b[i]) != GroupKey(b[j])
  {
    assert Distinct(a);
    DistinctPermutation(a, b);
    forall i, j | 0 <= i < j < |b| ensures GroupKey(b[i]) != GroupKey(b[j]) {
      assert b[i] in multiset(a) && b[j] in multiset(a);
      var x :| 0 <= x < |a| && a[x] == b[i];
      var y :| 0 <= y < |a| && a[y] == b[j];
      assert x != y;
      assert x < y || y < x;
    }
  }

  /** Recording an event leaves every other consumer's summary alone. */
  lemma RecordingIsLocal(events: seq<Event>, e: Event, consumerId: string)
    requires e.consumerId != consumerId
    ensures SummaryOf(events + [e], consumerId) == SummaryOf(events, consumerId)
  {
    var kept := Filter(events, Matching(OfConsumer(consumerId)));
    FilterConcat(events, [e], Matching(OfConsumer(consumerId)));
    assert Filter([e], Matching(OfConsumer(consumerId))) == [];
    assert kept + [] == kept;
  }

  /** Recording an event adds exactly that event to its consumer's summary: to the totals and to the line under its
      key, and to no other line. */
  lemma RecordingAdds(events: seq<Event>, e: Event, key: string)
    ensures var before, after := SummaryOf(events, e.consumerId), SummaryOf(events + [e], e.consumerId);
      && after.totals == Plus(before.totals, Of(e))
      && TotalsAt(after.byResourceAction, key)
      == if KeyOf(e) == key then Plus(TotalsAt(before.byResourceAction, key), Of(e))
         else TotalsAt(before.byResourceAction, key)
  {
    SummaryConserves(events, e.consumerId, key);
    SummaryConserves(events + [e], e.consumerId, key);
    SumSnoc(events, e, Some(e.consumerId), None);
    SumSnoc(events, e, Some(e.consumerId), Some(key));
  }

  lemma WithoutHead(a: seq<Event>, b: seq<Event>, k: nat)
    requires multiset(a) == multiset(b) && a != [] && k < |b| && b[k] == a[0]
    ensures multiset(a[1..]) == multiset(b[..k] + b[k + 1..])
  {
    assert a == [a[0]] + a[1..] && b == b[..k] + [b[k]] + b[k + 1..];
    assert multiset(a[1..]) == multiset(a) - multiset{a[0]};
    assert multiset(b[..k] + b[k + 1..]) == multiset(b) - multiset{b[k]};
  }

  lemma {:induction false} SumPermuted(a: seq<Event>, b: seq<Event>, consumerId: Option<string>, key: Option<string>)
    requires multiset(a) == multiset(b)
    ensures Sum(a, consumerId, key) == Sum(b, consumerId, key)
  {
    if a == [] {
      assert |multiset(a)| == 0 == |multiset(b)| == |b|;
    } else {
      assert a[0] in multiset(b);
      var k :| 0 <= k < |b| && b[k] == a[0];
      WithoutHead(a, b, k);
      SumPermuted(a[1..], b[..k] + b[k + 1..], consumerId, key);
      SumSpliced(b[..k], b[k], b[k + 1..], consumerId, key);
      assert b == b[..k] + [b[k]] + b[k + 1..];
    }
  }

  lemma {:induction false} SumSpliced(
    a: seq<Event>, e: Event, b: seq<Event>, consumerId: Option<string>, key: Option<string>)
    ensures Sum(a + [e] + b, consumerId, key) == Plus(Share(e, consumerId, key), Sum(a + b, consumerId, key))
  {
    if a == [] {
      assert a + [e] + b == [e] + b && a + b == b;
      assert ([e] + b)[1..] == b;
    } else {
      assert (a + [e] + b)[1..] == a[1..] + [e] + b && (a + b)[1..] == a[1..] + b;
      SumSpliced(a[1..], e, b, consumerId, key);
    }
  }

  /** The totals of a bill, and what it charges under each key, do not depend on the order of recording. */
  lemma TotalsOrderIrrelevant(a: seq<Event>, b: seq<Event>, consumerId: string, key: string)
    requires multiset(a) == multiset(b)
    ensures var s, t := SummaryOf(a, consumerId), SummaryOf(b, consumerId);
      && s.totals == t.totals
      && TotalsAt(s.byResourceAction, key) == TotalsAt(t.byResourceAction, key)
  {
    SummaryConserves(a, consumerId, key);
    SummaryConserves(b, consumerId, key);
    SumPermuted(a, b, Some(consumerId), None);
    SumPermuted(a, b, Some(consumerId), Some(key));
  }

  // ---------- the service ----------

  class InMemoryMonetizationService {
    var rules: map<string, PricingRule>
    var events: seq<Event>
    var idSequence: nat

    ghost predicate Valid()
      reads this
    {
      idSequence == |events| && NumberedEvents(events)
    }

    constructor ()
      ensures Valid() && rules == map[] && events == []
    {
      rules, events, idSequence := map[], [], 0;
    }

    method SetRule(rule: PricingRule)
      requires Valid()
      modifies this`rules
      ensures Valid() && rules == old(rules)[PairKey(rule.resource, rule.action) := rule]
    {
      rules := rules[PairKey(rule.resource, rule.action) := rule];
    }

    method RecordUsageAsBillable(usage: Usage, given: Option<PricingRule>) returns (billed: Option<Event>)
      requires Valid()
      modifies this`events, this`idSequence
      ensures Valid()
      ensures billed.None? <==> RuleFor(rules, usage, given).None?
      ensures billed.None? ==> events == old(events)
      ensures billed.Some? ==>
        && billed.value == Billed(|old(events)| + 1, usage, RuleFor(rules, usage, given).value)
        && events == old(events) + [billed.value]
    {
      var rule := RuleFor(rules, usage, given);
      if rule.None? {
        return None;
      }
      idSequence := idSequence + 1;
      var event := Billed(idSequence, usage, rule.value);
      events := events + [event];
      billed := Some(event);
    }

    method ListBillableEvents(q: Query) returns (listed: seq<Event>)
      ensures listed == Listed(events, q)
    {
      listed := Sort(Filter(events, Matching(q)), TimeLeq);
    }

    /** One turn of the summary's loop. */
    static method Tally(order: seq<string>, grouped: map<string, Group>, e: Event)
      returns (newOrder: seq<string>, newGrouped: map<string, Group>)
      ensures Grouping(newOrder, newGrouped) == AddEvent(Grouping(order, grouped), e)
    {
      var key := KeyOf(e);
      var existing := if key in grouped then grouped[key] else Group(e.resource, e.action, Zero());
      var t := existing.totals;
      RoundedSum(t.price, e.totalPrice);
      t := Totals(t.quantity + e.quantity, RoundMoney(Amount(t.price) + Amount(e.totalPrice)), t.count + 1);
      newOrder := if key in grouped then order else order + [key];
      newGrouped := grouped[key := existing.(totals := t)];
    }

    method GetConsumerSummary(consumerId: string) returns (summary: Summary)
      ensures summary == SummaryOf(events, consumerId)
    {
      var listed := ListBillableEvents(OfConsumer(consumerId));
      var order: seq<string> := [];
      var grouped: map<string, Group> := map[];
      for i := 0 to |listed|
        invariant Grouping(order, grouped) == Collect(listed[..i])
      {
        CollectNext(listed, i);
        order, grouped := Tally(order, grouped, listed[i]);
      }
      assert listed[..|listed|] == listed;
      CollectConserves(listed);
      var groups := GroupsOf(Grouping(order, grouped));
      var sums := SumGroups(groups);
      RoundedSum(sums.price, 0);
      summary := Summary(consumerId, Totals(sums.quantity, RoundMoney(Amount(sums.price)), |listed|), groups);
    }
  }
}
