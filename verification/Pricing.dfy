/** What a usage is charged and by which rule: prices are registered under the same keys made of two names as bill
    lines. */
module Pricing {
  import opened Options
  import opened Text
  import opened Monetization

  /** The registry after rules were set in order. */
  function Registry(history: seq<PricingRule>): map<string, PricingRule> {
    if history == [] then map[]
    else
      var rule := history[|history| - 1];
      Registry(history[..|history| - 1])[PairKey(rule.resource, rule.action) := rule]
  }

  predicate ForPair(rule: PricingRule, resource: string, action: string) {
    rule.resource == resource && rule.action == action
  }

  /** A rule for another pair under the pair's key. */
  predicate Foreign(rule: PricingRule, resource: string, action: string) {
    PairKey(rule.resource, rule.action) == PairKey(resource, action) && !ForPair(rule, resource, action)
  }

  /** The rule last set for the pair itself. */
  function OwnRule(history: seq<PricingRule>, resource: string, action: string): (rule: Option<PricingRule>)
    ensures rule.Some? ==> ForPair(rule.value, resource, action)
  {
    if history == [] then None
    else
      var last := history[|history| - 1];
      if ForPair(last, resource, action) then Some(last) else OwnRule(history[..|history| - 1], resource, action)
  }

  /** Whatever was set for another pair under the pair's key, a rule for the pair itself was set later. */
  ghost predicate Reclaimed(history: seq<PricingRule>, resource: string, action: string) {
    forall i | 0 <= i < |history| && Foreign(history[i], resource, action) ::
      exists j | i < j < |history| :: ForPair(history[j], resource, action)
  }

  lemma ReclaimedSnoc(history: seq<PricingRule>, rule: PricingRule, resource: string, action: string)
    ensures Reclaimed(history + [rule], resource, action) <==>
      || ForPair(rule, resource, action)
      || (!Foreign(rule, resource, action) && Reclaimed(history, resource, action))
  {
    var all := history + [rule];
    assert all[|history|] == rule;
    assert forall i | 0 <= i < |history| :: all[i] == history[i];
    if !ForPair(rule, resource, action) && Reclaimed(all, resource, action) {
      forall i | 0 <= i < |history| && Foreign(history[i], resource, action)
        ensures exists j | i < j < |history| :: ForPair(history[j], resource, action)
      {
        assert Foreign(all[i], resource, action);
        var j :| i < j < |all| && ForPair(all[j], resource, action);
        assert ForPair(history[j], resource, action);
      }
    }
    if !Foreign(rule, resource, action) && Reclaimed(history, resource, action) {
      forall i | 0 <= i < |all| && Foreign(all[i], resource, action)
        ensures exists j | i < j < |all| :: ForPair(all[j], resource, action)
      {
        assert Foreign(history[i], resource, action);
        var j :| i < j < |history| && ForPair(history[j], resource, action);
        assert ForPair(all[j], resource, action);
      }
    }
  }

  /** Without a rule of its own a usage is priced by the rule last set for its resource and action, or not at all if
      there is none, exactly when every rule set for another pair under its key was followed by one for its own. */
  lemma {:induction false} PricedByOwnIff(history: seq<PricingRule>, usage: Usage)
    ensures RuleFor(Registry(history), usage, None) == OwnRule(history, usage.resource, usage.action)
       <==> Reclaimed(history, usage.resource, usage.action)
  {
    if history != [] {
      var front, last := history[..|history| - 1], history[|history| - 1];
      assert history == front + [last];
      PricedByOwnIff(front, usage);
      ReclaimedSnoc(front, last, usage.resource, usage.action);
    }
  }

  /** In particular with colon-free resources. */
  lemma PlainResourcesPricedByOwn(history: seq<PricingRule>, usage: Usage)
    requires ':' !in usage.resource && forall rule | rule in history :: ':' !in rule.resource
    ensures RuleFor(Registry(history), usage, None) == OwnRule(history, usage.resource, usage.action)
  {
    forall i | 0 <= i < |history| ensures !Foreign(history[i], usage.resource, usage.action) {
      assert history[i] in history;
      PairKeyInjective(history[i].resource, history[i].action, usage.resource, usage.action);
    }
    PricedByOwnIff(history, usage);
  }

  /** A rule set for one pair prices a usage of another, for which no rule was ever set. */
  lemma ForeignPrice()
    ensures var rule, usage := PricingRule("a", ":b", 1.0), Usage("c", "a:", "b", 1.0, 0, None);
      && RuleFor(Registry([rule]), usage, None) == Some(rule)
      && OwnRule([rule], usage.resource, usage.action) == None
  {
    var rule := PricingRule("a", ":b", 1.0);
    assert "a" + "::" + ":b" == "a:::b" == "a:" + "::" + "b";
    assert "a" != "a:" by { assert |"a"| != |"a:"|; }
    assert [rule][..0] == [];
  }

  // ---------- what is charged ----------

  /** The whole number of millionths nearest to an amount, halves away from zero. */
  ghost predicate NearestMicros(micros: int, value: real) {
    var exact := value * 1000000.0;
    if value < 0.0 then micros as real - 0.5 < exact <= micros as real + 0.5
    else micros as real - 0.5 <= exact < micros as real + 0.5
  }

  lemma RoundIsNearest(value: real)
    ensures NearestMicros(RoundMoney(value), value)
    ensures forall micros | NearestMicros(micros, value) :: micros == RoundMoney(value)
  {
    forall micros | NearestMicros(micros, value) ensures micros == RoundMoney(value) {
      OneNearest(micros, RoundMoney(value), value);
    }
  }

  lemma OneNearest(a: int, b: int, value: real)
    requires NearestMicros(a, value) && NearestMicros(b, value)
    ensures a == b
  {
    assert (a as real) - (b as real) < 1.0 && (b as real) - (a as real) < 1.0;
    assert (a - b) as real == (a as real) - (b as real);
  }

  /** What a usage is charged: the quantity at the price of the rule given with it, or else of the registered one, to
      the nearest millionth; the event repeats the usage under the next number. */
  lemma ChargeTells(n: nat, rules: map<string, PricingRule>, usage: Usage, given: Option<PricingRule>)
    ensures RuleFor(rules, usage, given) ==
      if given.Some? then given
      else if usage.resource + "::" + usage.action in rules
      then Some(rules[usage.resource + "::" + usage.action])
      else None
    ensures RuleFor(rules, usage, given).Some? ==>
      var rule := RuleFor(rules, usage, given).value;
      var e := Billed(n, usage, rule);
      && e.unitPrice == rule.unitPrice && e.quantity == usage.quantity
      && NearestMicros(e.totalPrice, rule.unitPrice * usage.quantity)
      && e.consumerId == usage.consumerId && e.resource == usage.resource && e.action == usage.action
      && e.occurredAt == usage.occurredAt && e.auditEventId == usage.auditEventId && e.eventId == EventId(n)
  {
    if RuleFor(rules, usage, given).Some? {
      RoundIsNearest(RuleFor(rules, usage, given).value.unitPrice * usage.quantity);
    }
  }

  lemma RoundGrows(a: real, b: real)
    requires a <= b
    ensures RoundMoney(a) <= RoundMoney(b)
  {
    RoundIsNearest(a);
    RoundIsNearest(b);
    var x, y := RoundMoney(a), RoundMoney(b);
    assert a * 1000000.0 <= b * 1000000.0;
    assert y < x ==> y as real + 1.0 <= x as real;
  }

  /** Using more never costs less, at a price that is not negative. */
  lemma MoreCostsMore(n: nat, m: nat, usage: Usage, more: real, rule: PricingRule)
    requires rule.unitPrice >= 0.0 && usage.quantity <= more
    ensures Billed(n, usage, rule).totalPrice <= Billed(m, usage.(quantity := more), rule).totalPrice
  {
    Scaled(rule.unitPrice, usage.quantity, more);
    RoundGrows(rule.unitPrice * usage.quantity, rule.unitPrice * more);
  }

  lemma Scaled(price: real, a: real, b: real)
    requires price >= 0.0 && a <= b
    ensures price * a <= price * b
  {
    assert price * (b - a) >= 0.0;
    assert price * b == price * a + price * (b - a);
  }
}
