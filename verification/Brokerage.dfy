/** Capability brokerage: routing a request to the best reputed provider whose offer meets it. */
module Brokerage {
  import opened Options
  import Sorting

  // ---------- the market ----------

  datatype Provider = Provider(
    providerId: string,
    runtimeId: string,
    federationId: string,
    consentPolicyRefs: seq<string>,
    sovereignOptOut: bool)

  datatype Consumer = Consumer(runtimeId: string, budgetCeiling: real, acceptedPolicyRefs: seq<string>)

  datatype Offer = Offer(
    offerId: string,
    providerId: string,
    capabilityId: string,
    scope: seq<string>,
    maxBudget: real,
    constraints: seq<string>)

  datatype Record = Record(
    providerId: string,
    fulfilled: bool,
    obligationsMet: real,
    obligationsTotal: real,
    auditIntegrityScore: real)

  datatype Profile = Profile(providerId: string, records: seq<Record>, score: real)

  datatype Market = Market(providers: seq<Provider>, offers: seq<Offer>, reputations: seq<Profile>)

  datatype Request = Request(
    requestId: string,
    consumer: Consumer,
    capabilityId: string,
    requiredScope: seq<string>,
    maxBudget: real,
    federationId: string,
    requireConsentRef: string,
    lineage: seq<string>)

  datatype Decision = Decision(
    decisionId: string,
    requestId: string,
    selectedProviderId: Option<string>,
    selectedOfferId: Option<string>,
    allowed: bool,
    trustPath: seq<string>,
    offered: real,
    budgetPass: bool,
    federationPass: bool,
    providerSupportsRef: bool,
    consumerAcceptsRef: bool,
    missingScopes: seq<string>,
    violatedConstraints: seq<string>)

  // ---------- lookups ----------

  /** `providers.find`: the first provider published under the id. */
  function FindProvider(providers: seq<Provider>, id: string): Option<Provider> {
    if providers == [] then None
    else if providers[0].providerId == id then Some(providers[0])
    else FindProvider(providers[1..], id)
  }

  /** The index of the first profile kept for the provider, or the number of profiles. */
  function FindProfile(profiles: seq<Profile>, id: string): (k: nat)
    ensures k <= |profiles|
    ensures k < |profiles| ==> profiles[k].providerId == id
    ensures forall j | 0 <= j < k :: profiles[j].providerId != id
  {
    if profiles == [] || profiles[0].providerId == id then 0 else 1 + FindProfile(profiles[1..], id)
  }

  /** A provider without a profile scores 0. */
  function ReputationScore(profiles: seq<Profile>, id: string): real {
    var k := FindProfile(profiles, id);
    if k < |profiles| then profiles[k].score else 0.0
  }

  function FindOffer(offers: seq<Offer>, id: string): Option<Offer> {
    if offers == [] then None
    else if offers[0].offerId == id then Some(offers[0])
    else FindOffer(offers[1..], id)
  }

  // ---------- one row ----------

  predicate BudgetPass(r: Request, o: Offer) {
    o.maxBudget <= r.maxBudget && o.maxBudget <= r.consumer.budgetCeiling
  }

  predicate FederationPass(r: Request, p: Provider) {
    p.federationId == r.federationId && p.runtimeId != r.consumer.runtimeId
  }

  function MissingScopes(r: Request, o: Offer): seq<string> {
    Sorting.Filter(r.requiredScope, s => s !in o.scope)
  }

  /** Whether an offer of a provider meets every constraint of a request. */
  predicate Passes(r: Request, o: Offer, p: Provider) {
    && (forall s | s in r.requiredScope :: s in o.scope)
    && BudgetPass(r, o)
    && FederationPass(r, p)
    && r.requireConsentRef in p.consentPolicyRefs
    && r.requireConsentRef in r.consumer.acceptedPolicyRefs
  }

  function EvaluateRow(r: Request, o: Offer, p: Provider): (d: Decision)
    ensures d.allowed <==> Passes(r, o, p)
  {
    var missing := MissingScopes(r, o);
    Sorting.FilterMembers(r.requiredScope, s => s !in o.scope);
    var supports := r.requireConsentRef in p.consentPolicyRefs;
    var accepts := r.requireConsentRef in r.consumer.acceptedPolicyRefs;
    var allowed := missing == [] && BudgetPass(r, o) && FederationPass(r, p) && supports && accepts;
    NothingMissing(r, o);
    Decision(
      r.requestId + ":" + o.offerId,
      r.requestId,
      if allowed then Some(p.providerId) else None,
      if allowed then Some(o.offerId) else None,
      allowed,
      r.lineage + [p.providerId],
      o.maxBudget,
      BudgetPass(r, o),
      FederationPass(r, p),
      supports,
      accepts,
      missing,
      if allowed then [] else o.constraints)
  }

  lemma NothingMissing(r: Request, o: Offer)
    ensures MissingScopes(r, o) == [] <==> forall s | s in r.requiredScope :: s in o.scope
  {
    var missing := MissingScopes(r, o);
    Sorting.FilterMembers(r.requiredScope, s => s !in o.scope);
    if missing != [] {
      assert missing[0] in missing;
    }
  }

  function Denied(r: Request): Decision {
    Decision(r.requestId + ":deny", r.requestId, None, None, false, r.lineage, 0.0, false, false, false, false,
             r.requiredScope, ["no-provider-match"])
  }

  /** What the evaluation of a row reports beside the answer. */
  lemma RowTells(r: Request, o: Offer, p: Provider)
    ensures var d := EvaluateRow(r, o, p);
      && d.decisionId == r.requestId + ":" + o.offerId && d.requestId == r.requestId
      && d.trustPath == r.lineage + [p.providerId] && d.offered == o.maxBudget
      && (d.budgetPass <==> o.maxBudget <= r.maxBudget && o.maxBudget <= r.consumer.budgetCeiling)
      && (d.federationPass <==> p.federationId == r.federationId && p.runtimeId != r.consumer.runtimeId)
      && (d.providerSupportsRef <==> r.requireConsentRef in p.consentPolicyRefs)
      && (d.consumerAcceptsRef <==> r.requireConsentRef in r.consumer.acceptedPolicyRefs)
      && (forall s :: s in d.missingScopes <==> s in r.requiredScope && s !in o.scope)
      && d.violatedConstraints == (if d.allowed then [] else o.constraints)
      && (d.allowed <==> d.missingScopes == [] && d.budgetPass && d.federationPass && d.providerSupportsRef
                         && d.consumerAcceptsRef)
  {
    NothingMissing(r, o);
    Sorting.FilterMembers(r.requiredScope, s => s !in o.scope);
  }

  // ---------- ranking ----------

  /** A candidate row; `index` is the place of its offer in the order of publication. */
  datatype Row = Row(index: nat, offer: Offer, provider: Provider)

  /** The row an offer gives, if it is for the capability and its provider is known and takes part. */
  function Candidate(m: Market, capabilityId: string, k: nat): Option<Row>
    requires k < |m.offers|
  {
    var o := m.offers[k];
    if o.capabilityId != capabilityId then None
    else
      match FindProvider(m.providers, o.providerId)
      case None => None
      case Some(p) => if p.sovereignOptOut then None else Some(Row(k, o, p))
  }

  /** The rows of the first `n` offers. */
  function Rows(m: Market, capabilityId: string, n: nat): seq<Row>
    requires n <= |m.offers|
  {
    if n == 0 then []
    else
      var front := Rows(m, capabilityId, n - 1);
      match Candidate(m, capabilityId, n - 1)
      case None => front
      case Some(row) => front + [row]
  }

  function ScoreOf(m: Market, row: Row): real {
    ReputationScore(m.reputations, row.provider.providerId)
  }

  /** `sort((a, b) => score(b) - score(a))` keeps `a` before `b` when it does not score less. */
  function ByScore(m: Market): (Row, Row) -> bool {
    (a, b) => ScoreOf(m, a) >= ScoreOf(m, b)
  }

  function ByIndex(): (Row, Row) -> bool {
    (a: Row, b: Row) => a.index < b.index
  }

  function Ranked(m: Market, capabilityId: string): seq<Row> {
    Sorting.Sort(Rows(m, capabilityId, |m.offers|), ByScore(m))
  }

  lemma {:induction false} RowsExactly(m: Market, capabilityId: string, n: nat)
    requires n <= |m.offers|
    ensures Sorting.Sorted(Rows(m, capabilityId, n), ByIndex())
    ensures forall row | row in Rows(m, capabilityId, n) ::
      row.index < n && Candidate(m, capabilityId, row.index) == Some(row)
    ensures forall k | 0 <= k < n ::
      Candidate(m, capabilityId, k).Some? ==> Candidate(m, capabilityId, k).value in Rows(m, capabilityId, n)
  {
    if n > 0 {
      RowsExactly(m, capabilityId, n - 1);
    }
  }

  lemma RankedExactly(m: Market, capabilityId: string)
    ensures Sorting.StablySorted(Ranked(m, capabilityId), ByScore(m), ByIndex())
    ensures forall row | row in Ranked(m, capabilityId) ::
      row.index < |m.offers| && Candidate(m, capabilityId, row.index) == Some(row)
    ensures forall k | 0 <= k < |m.offers| ::
      Candidate(m, capabilityId, k).Some? ==> Candidate(m, capabilityId, k).value in Ranked(m, capabilityId)
  {
    var rows := Rows(m, capabilityId, |m.offers|);
    RowsExactly(m, capabilityId, |m.offers|);
    Sorting.SortMembers(rows, ByScore(m));
    Sorting.SortStable(rows, ByScore(m), ByIndex());
  }

  // ---------- what routing promises ----------

  /** The offer at `k` can serve the request. */
  predicate Eligible(m: Market, r: Request, k: nat) {
    && k < |m.offers|
    && var c := Candidate(m, r.capabilityId, k);
       c.Some? && Passes(r, c.value.offer, c.value.provider)
  }

  function OfferScore(m: Market, k: nat): real
    requires k < |m.offers|
  {
    ReputationScore(m.reputations, m.offers[k].providerId)
  }

  /** Eligible, of the highest reputation among the eligible, and of those the first published. */
  ghost predicate Best(m: Market, r: Request, k: nat) {
    && Eligible(m, r, k)
    && forall j | 0 <= j < |m.offers| && Eligible(m, r, j) ::
         OfferScore(m, j) < OfferScore(m, k) || (OfferScore(m, j) == OfferScore(m, k) && k <= j)
  }

  function ChosenDecision(m: Market, r: Request, k: nat): Decision
    requires Eligible(m, r, k)
  {
    var row := Candidate(m, r.capabilityId, k).value;
    EvaluateRow(r, row.offer, row.provider)
  }

  /** The answer to a request: a denial if nothing is eligible, else the evaluation of the best row. */
  ghost predicate Routes(m: Market, r: Request, d: Decision) {
    if d.allowed then exists k :: Best(m, r, k) && d == ChosenDecision(m, r, k)
    else d == Denied(r) && forall k :: !Eligible(m, r, k)
  }

  lemma {:induction false} FoundProvider(providers: seq<Provider>, id: string)
    ensures FindProvider(providers, id).Some? ==>
              FindProvider(providers, id).value in providers && FindProvider(providers, id).value.providerId == id
    ensures FindProvider(providers, id).None? ==> forall p | p in providers :: p.providerId != id
  {
    if providers != [] {
      FoundProvider(providers[1..], id);
      assert providers == [providers[0]] + providers[1..];
    }
  }

  lemma CandidateScore(m: Market, capabilityId: string, k: nat)
    requires k < |m.offers| && Candidate(m, capabilityId, k).Some?
    ensures ScoreOf(m, Candidate(m, capabilityId, k).value) == OfferScore(m, k)
  {
    FoundProvider(m.providers, m.offers[k].providerId);
  }

  /** Nothing ranked before `i` passes. */
  predicate NonePassBefore(r: Request, rows: seq<Row>, i: nat)
    requires i <= |rows|
  {
    forall j | 0 <= j < i :: !Passes(r, rows[j].offer, rows[j].provider)
  }

  lemma RankedLater(m: Market, r: Request, i: nat, j: nat)
    requires i < |Ranked(m, r.capabilityId)| && NonePassBefore(r, Ranked(m, r.capabilityId), i)
    requires Eligible(m, r, j)
    ensures var row := Ranked(m, r.capabilityId)[i];
      && row.index < |m.offers|
      && (OfferScore(m, j) < OfferScore(m, row.index)
          || (OfferScore(m, j) == OfferScore(m, row.index) && row.index <= j))
  {
    var rows := Ranked(m, r.capabilityId);
    RankedExactly(m, r.capabilityId);
    assert rows[i] in rows;
    CandidateScore(m, r.capabilityId, rows[i].index);
    CandidateScore(m, r.capabilityId, j);
    var at :| 0 <= at < |rows| && rows[at] == Candidate(m, r.capabilityId, j).value;
    assert at >= i;
  }

  /** The first passing row of the ranking is the best one. */
  lemma FirstPassingIsBest(m: Market, r: Request, i: nat)
    requires i < |Ranked(m, r.capabilityId)| && NonePassBefore(r, Ranked(m, r.capabilityId), i)
    requires var row := Ranked(m, r.capabilityId)[i]; Passes(r, row.offer, row.provider)
    ensures var row := Ranked(m, r.capabilityId)[i];
      && Best(m, r, row.index)
      && ChosenDecision(m, r, row.index) == EvaluateRow(r, row.offer, row.provider)
  {
    var rows := Ranked(m, r.capabilityId);
    RankedExactly(m, r.capabilityId);
    assert rows[i] in rows;
    var k := rows[i].index;
    forall j | 0 <= j < |m.offers| && Eligible(m, r, j)
      ensures OfferScore(m, j) < OfferScore(m, k) || (OfferScore(m, j) == OfferScore(m, k) && k <= j)
    {
      RankedLater(m, r, i, j);
    }
  }

  lemma NonePassing(m: Market, r: Request)
    requires forall row | row in Ranked(m, r.capabilityId) :: !Passes(r, row.offer, row.provider)
    ensures forall k :: !Eligible(m, r, k)
  {
    RankedExactly(m, r.capabilityId);
  }

  lemma BestUnique(m: Market, r: Request, j: nat, k: nat)
    requires Best(m, r, j) && Best(m, r, k)
    ensures j == k
  {
  }

  /** A request has one answer. */
  lemma RoutesUnique(m: Market, r: Request, d: Decision, e: Decision)
    requires Routes(m, r, d) && Routes(m, r, e)
    ensures d == e
  {
    if d.allowed && e.allowed {
      var j: nat :| Best(m, r, j) && d == ChosenDecision(m, r, j);
      var k: nat :| Best(m, r, k) && e == ChosenDecision(m, r, k);
      BestUnique(m, r, j, k);
    }
  }

  // ---------- how the market's growth shows ----------

  lemma {:induction false} FindAppended(providers: seq<Provider>, p: Provider, id: string)
    ensures FindProvider(providers + [p], id) ==
            if FindProvider(providers, id).Some? then FindProvider(providers, id)
            else if p.providerId == id then Some(p) else None
  {
    if providers == [] {
      assert providers + [p] == [p];
    } else {
      assert (providers + [p])[1..] == providers[1..] + [p];
      FindAppended(providers[1..], p, id);
    }
  }

  /** Publishing a provider takes no offer out of the running: a second provider under a known id is never found. */
  lemma ProviderOnlyAdds(m: Market, p: Provider, r: Request, k: nat)
    requires Eligible(m, r, k)
    ensures Eligible(m.(providers := m.providers + [p]), r, k)
  {
    FindAppended(m.providers, p, m.offers[k].providerId);
  }

  lemma OfferKeepsEligible(m: Market, o: Offer, r: Request, k: nat)
    requires k < |m.offers|
    ensures var n := m.(offers := m.offers + [o]);
      && (Eligible(n, r, k) <==> Eligible(m, r, k))
      && OfferScore(n, k) == OfferScore(m, k)
      && (Eligible(m, r, k) ==> ChosenDecision(n, r, k) == ChosenDecision(m, r, k))
  {
    var n := m.(offers := m.offers + [o]);
    assert n.offers[k] == m.offers[k];
    assert Candidate(n, r.capabilityId, k) == Candidate(m, r.capabilityId, k);
  }

  /** Publishing an offer changes an answer only where the new offer passes and outscores the old choice. */
  lemma OfferOnlyImproves(m: Market, o: Offer, r: Request, before: Decision, after: Decision)
    requires Routes(m, r, before) && Routes(m.(offers := m.offers + [o]), r, after)
    ensures before.allowed ==> after.allowed
    ensures after != before ==>
      var n := m.(offers := m.offers + [o]);
      && Best(n, r, |m.offers|) && after == ChosenDecision(n, r, |m.offers|)
      && forall k | 0 <= k < |m.offers| && Eligible(m, r, k) :: OfferScore(m, k) < OfferScore(n, |m.offers|)
  {
    var n := m.(offers := m.offers + [o]);
    forall k | 0 <= k < |m.offers|
      ensures (Eligible(n, r, k) <==> Eligible(m, r, k)) && OfferScore(n, k) == OfferScore(m, k)
    {
      OfferKeepsEligible(m, o, r, k);
    }
    if after.allowed {
      var k: nat :| Best(n, r, k) && after == ChosenDecision(n, r, k);
      if k < |m.offers| {
        OfferKeepsEligible(m, o, r, k);
        assert Best(m, r, k);
        assert Routes(m, r, after);
        RoutesUnique(m, r, before, after);
      }
    }
  }

  /** Reputation ranks, it never gates: what is allowed does not depend on the profiles. */
  lemma ReputationNeverGates(m: Market, profiles: seq<Profile>, r: Request, d: Decision, e: Decision)
    requires Routes(m, r, d) && Routes(m.(reputations := profiles), r, e)
    ensures d.allowed <==> e.allowed
  {
    var n := m.(reputations := profiles);
    assert forall k :: Eligible(n, r, k) <==> Eligible(m, r, k);
  }

  // ---------- the answer written out ----------

  /** The provider an id stands for: the first one published under it. */
  ghost predicate PublishedAs(providers: seq<Provider>, id: string, p: Provider) {
    exists i :: 0 <= i < |providers| && providers[i] == p && p.providerId == id
      && forall j | 0 <= j < i :: providers[j].providerId != id
  }

  /** The offer at `k`, of provider `p`, can serve the request: the provider takes part, and capability, scope, budgets,
      federation and consent all fit. */
  ghost predicate Serves(m: Market, r: Request, k: int, p: Provider) {
    && 0 <= k < |m.offers|
    && var o := m.offers[k];
    && PublishedAs(m.providers, o.providerId, p) && !p.sovereignOptOut
    && o.capabilityId == r.capabilityId && (forall s | s in r.requiredScope :: s in o.scope)
    && o.maxBudget <= r.maxBudget && o.maxBudget <= r.consumer.budgetCeiling
    && p.federationId == r.federationId && p.runtimeId != r.consumer.runtimeId
    && r.requireConsentRef in p.consentPolicyRefs && r.requireConsentRef in r.consumer.acceptedPolicyRefs
  }

  lemma {:induction false} FindProviderAt(providers: seq<Provider>, id: string) returns (i: nat)
    ensures i <= |providers| && forall j | 0 <= j < i :: providers[j].providerId != id
    ensures i < |providers| ==> providers[i].providerId == id && FindProvider(providers, id) == Some(providers[i])
    ensures i == |providers| ==> FindProvider(providers, id) == None
  {
    i := 0;
    if providers != [] && providers[0].providerId != id {
      var rest := FindProviderAt(providers[1..], id);
      assert forall j | 1 <= j < |providers| :: providers[j] == providers[1..][j - 1];
      i := rest + 1;
    }
  }

  lemma FoundIsPublished(providers: seq<Provider>, id: string)
    ensures match FindProvider(providers, id)
      case None => forall p :: !PublishedAs(providers, id, p)
      case Some(found) => forall p :: PublishedAs(providers, id, p) <==> p == found
  {
    var i := FindProviderAt(providers, id);
    if i < |providers| {
      assert providers[i] == FindProvider(providers, id).value;
    }
  }

  lemma EligibleIff(m: Market, r: Request, k: nat)
    ensures Eligible(m, r, k) <==> exists p :: Serves(m, r, k, p)
    ensures forall p | Serves(m, r, k, p) ::
      Eligible(m, r, k) && ChosenDecision(m, r, k) == EvaluateRow(r, m.offers[k], p)
  {
    if k < |m.offers| {
      FoundIsPublished(m.providers, m.offers[k].providerId);
      if Eligible(m, r, k) {
        assert Serves(m, r, k, FindProvider(m.providers, m.offers[k].providerId).value);
      }
    }
  }

  /** The score kept in the first profile under an id, or nothing. */
  lemma ScoreTells(profiles: seq<Profile>, id: string, i: nat)
    ensures (forall j | 0 <= j < |profiles| :: profiles[j].providerId != id) ==> ReputationScore(profiles, id) == 0.0
    ensures
      i < |profiles| && profiles[i].providerId == id && (forall j | 0 <= j < i :: profiles[j].providerId != id) ==>
      ReputationScore(profiles, id) == profiles[i].score
  {
    var k := FindProfile(profiles, id);
  }

  /** The one row an allowed answer is about, and what the answer says of it. */
  ghost predicate Chooses(m: Market, r: Request, d: Decision, k: int, p: Provider) {
    && Serves(m, r, k, p)
    && (forall j, q | Serves(m, r, j, q) ::
          || ReputationScore(m.reputations, q.providerId) < ReputationScore(m.reputations, p.providerId)
          || (ReputationScore(m.reputations, q.providerId) == ReputationScore(m.reputations, p.providerId) && k <= j))
    && d.selectedProviderId == Some(p.providerId) && d.selectedOfferId == Some(m.offers[k].offerId)
    && d.decisionId == r.requestId + ":" + m.offers[k].offerId
    && d.trustPath == r.lineage + [p.providerId] && d.offered == m.offers[k].maxBudget
    && d.budgetPass && d.federationPass && d.providerSupportsRef && d.consumerAcceptsRef
    && d.missingScopes == [] && d.violatedConstraints == []
  }

  /** Every answer of the broker: allowed exactly when some offer serves the request, and then by the provider of the
      highest score, the earliest offer on a tie; a denial names nobody. No provider that opted out is ever chosen. */
  lemma AnswerTells(m: Market, r: Request, d: Decision)
    requires Routes(m, r, d)
    ensures d.requestId == r.requestId
    ensures d.allowed <==> exists k, p :: Serves(m, r, k, p)
    ensures d.allowed ==> exists k, p :: Chooses(m, r, d, k, p)
    ensures !d.allowed ==>
      && d.selectedProviderId == None && d.selectedOfferId == None && d.trustPath == r.lineage && d.offered == 0.0
      && !d.budgetPass && !d.federationPass && !d.providerSupportsRef && !d.consumerAcceptsRef
      && d.missingScopes == r.requiredScope && d.violatedConstraints == ["no-provider-match"]
      && d.decisionId == r.requestId + ":deny"
  {
    if d.allowed {
      var k: nat :| Best(m, r, k) && d == ChosenDecision(m, r, k);
      EligibleIff(m, r, k);
      var p :| Serves(m, r, k, p);
      NothingMissing(r, m.offers[k]);
      forall j, q | Serves(m, r, j, q)
        ensures ReputationScore(m.reputations, q.providerId) < ReputationScore(m.reputations, p.providerId)
          || (ReputationScore(m.reputations, q.providerId) == ReputationScore(m.reputations, p.providerId) && k <= j)
      {
        EligibleIff(m, r, j);
        assert OfferScore(m, j) == ReputationScore(m.reputations, q.providerId);
      }
      assert Chooses(m, r, d, k, p);
    } else {
      forall k, p ensures !Serves(m, r, k, p) {
        if Serves(m, r, k, p) {
          EligibleIff(m, r, k);
        }
      }
    }
  }

  // ---------- the agreement made from a decision ----------

  /** JavaScript's falsy test on an optional string: absent or empty. */
  predicate Missing(id: Option<string>) {
    id.None? || id.value == ""
  }

  /** The offer an execution agreement is drawn up from. */
  function AgreementOffer(m: Market, d: Decision): Option<Offer> {
    if !d.allowed || Missing(d.selectedOfferId) || Missing(d.selectedProviderId) then None
    else FindOffer(m.offers, d.selectedOfferId.value)
  }

  /** An offer under the same id was published before the one at `k`. */
  ghost predicate Shadowed(offers: seq<Offer>, k: nat)
    requires k < |offers|
  {
    exists i | 0 <= i < k :: offers[i].offerId == offers[k].offerId
  }

  lemma {:induction false} FindOfferFirst(offers: seq<Offer>, k: nat) returns (i: nat)
    requires k < |offers|
    ensures i <= k && offers[i].offerId == offers[k].offerId
    ensures forall h | 0 <= h < i :: offers[h].offerId != offers[k].offerId
    ensures FindOffer(offers, offers[k].offerId) == Some(offers[i])
  {
    if offers[0].offerId == offers[k].offerId {
      i := 0;
    } else {
      i := FindOfferFirst(offers[1..], k - 1);
      assert forall h | 1 <= h < |offers| :: offers[h] == offers[1..][h - 1];
      i := i + 1;
    }
  }

  lemma CopyIsAsGood(m: Market, r: Request, i: nat, k: nat)
    requires Eligible(m, r, k) && i < |m.offers| && m.offers[i] == m.offers[k]
    ensures Eligible(m, r, i) && OfferScore(m, i) == OfferScore(m, k)
  {
  }

  /** The best offer is the first of its copies: an earlier copy would have been as good. */
  lemma BestIsFirstCopy(m: Market, r: Request, k: nat, i: nat)
    requires Best(m, r, k) && i < k
    ensures m.offers[i] != m.offers[k]
  {
    if m.offers[i] == m.offers[k] {
      CopyIsAsGood(m, r, i, k);
    }
  }

  /** An agreement is drawn up, unless an id is empty, and from the very offer that was chosen exactly when no offer
      under its id was published earlier. */
  lemma AgreementIsChosenIff(m: Market, r: Request, d: Decision, k: nat)
    requires Best(m, r, k) && d == ChosenDecision(m, r, k)
    ensures AgreementOffer(m, d).Some? <==> !Missing(d.selectedOfferId) && !Missing(d.selectedProviderId)
    ensures AgreementOffer(m, d).Some? ==> (AgreementOffer(m, d).value == m.offers[k] <==> !Shadowed(m.offers, k))
  {
    var i := FindOfferFirst(m.offers, k);
    if i < k {
      BestIsFirstCopy(m, r, k, i);
    }
  }

  /** An agreement drawn up from the chosen offer stays within what was asked for. */
  lemma AgreementHonoursRequest(m: Market, r: Request, d: Decision, k: nat)
    requires Best(m, r, k) && d == ChosenDecision(m, r, k)
    requires AgreementOffer(m, d).Some? && !Shadowed(m.offers, k)
    ensures var o := AgreementOffer(m, d).value;
      && o.capabilityId == r.capabilityId && Some(o.providerId) == d.selectedProviderId
      && BudgetPass(r, o) && forall s | s in r.requiredScope :: s in o.scope
  {
    AgreementIsChosenIff(m, r, d, k);
    FoundProvider(m.providers, m.offers[k].providerId);
  }

  /** An instance of two offers under one id: the agreement is drawn up from one that was turned down. */
  lemma SharedOfferIdMisleads()
    ensures exists m: Market, r: Request, d: Decision ::
      Routes(m, r, d) && d.allowed && AgreementOffer(m, d).Some? && !BudgetPass(r, AgreementOffer(m, d).value)
  {
    var p := Provider("p", "host", "fed", ["c"], false);
    var dear, cheap := Offer("o", "p", "cap", [], 9.0, []), Offer("o", "p", "cap", [], 1.0, []);
    var m := Market([p], [dear, cheap], []);
    var r := Request("r", Consumer("home", 5.0, ["c"]), "cap", [], 5.0, "fed", "c", []);
    assert FindProvider(m.providers, "p") == Some(p);
    assert !Eligible(m, r, 0) && Eligible(m, r, 1);
    assert Best(m, r, 1);
    var d := ChosenDecision(m, r, 1);
    assert Routes(m, r, d) && AgreementOffer(m, d) == Some(dear);
  }

  // ---------- trust scores ----------

  function Max(a: real, b: real): real {
    if a < b then b else a
  }

  function Min(a: real, b: real): real {
    if a < b then a else b
  }

  /** `Math.round`: the nearest integer, halves upward. */
  function Round(x: real): real {
    (x + 0.5).Floor as real
  }

  function ObligationShare(record: Record): real {
    record.obligationsMet / Max(1.0, record.obligationsTotal)
  }

  function Fulfilled(records: seq<Record>): real {
    if records == [] then 0.0
    else Fulfilled(records[..|records| - 1]) + if records[|records| - 1].fulfilled then 1.0 else 0.0
  }

  function Obligations(records: seq<Record>): real {
    if records == [] then 0.0
    else Obligations(records[..|records| - 1]) + ObligationShare(records[|records| - 1])
  }

  function Audits(records: seq<Record>): real {
    if records == [] then 0.0
    else Audits(records[..|records| - 1]) + records[|records| - 1].auditIntegrityScore
  }

  function ComputeTrustScore(records: seq<Record>): (score: real)
    ensures 0.0 <= score <= 100.0
  {
    if records == [] then 0.0
    else
      var total := |records| as real;
      var score := Round(Fulfilled(records) / total * 40.0 + Obligations(records) / total * 30.0
                         + Audits(records) / total / 100.0 * 30.0);
      Max(0.0, Min(100.0, score))
  }

  /** What one record is worth, out of 100: forty for fulfilment, thirty for the share of obligations met, of at least
      one, and thirty for the audit. */
  function Merit(record: Record): real {
    (if record.fulfilled then 40.0 else 0.0)
    + record.obligationsMet / (if record.obligationsTotal < 1.0 then 1.0 else record.obligationsTotal) * 30.0
    + record.auditIntegrityScore * 0.3
  }

  function Merits(records: seq<Record>): real {
    if records == [] then 0.0 else Merits(records[..|records| - 1]) + Merit(records[|records| - 1])
  }

  predicate InRange(record: Record) {
    && 0.0 <= record.obligationsMet <= record.obligationsTotal
    && 0.0 <= record.auditIntegrityScore <= 100.0
  }

  lemma {:induction false} MeritsSplit(records: seq<Record>)
    ensures Merits(records) == Fulfilled(records) * 40.0 + Obligations(records) * 30.0 + Audits(records) * 0.3
  {
    if records != [] {
      MeritsSplit(records[..|records| - 1]);
    }
  }

  lemma ShareInRange(record: Record)
    requires InRange(record)
    ensures 0.0 <= ObligationShare(record) <= 1.0
  {
    var top, base := record.obligationsMet, Max(1.0, record.obligationsTotal);
    assert top <= base;
    QuotientBounds(top, base, 1.0);
  }

  lemma CancelRight(a: real, b: real, n: real)
    requires n > 0.0 && a * n <= b * n
    ensures a <= b
  {
  }

  lemma QuotientBounds(a: real, b: real, most: real)
    requires b > 0.0 && 0.0 <= a <= most * b
    ensures 0.0 <= a / b <= most
  {
    var q := a / b;
    assert q * b == a;
    CancelRight(q, most, b);
    CancelRight(0.0, q, b);
  }

  lemma {:induction false} MeritsInRange(records: seq<Record>)
    requires forall x | x in records :: InRange(x)
    ensures 0.0 <= Merits(records) <= 100.0 * |records| as real
  {
    if records != [] {
      var last := records[|records| - 1];
      assert records == records[..|records| - 1] + [last];
      MeritsInRange(records[..|records| - 1]);
      ShareInRange(last);
    }
  }

  lemma DistributeDivision(a: real, b: real, c: real, n: real)
    requires n > 0.0
    ensures a / n * 40.0 + b / n * 30.0 + c / n / 100.0 * 30.0 == (a * 40.0 + b * 30.0 + c * 0.3) / n
  {
    var x, y, z := a / n, b / n, c / n;
    assert x * n == a && y * n == b && z * n == c;
    var whole := x * 40.0 + y * 30.0 + z * 0.3;
    assert whole * n == a * 40.0 + b * 30.0 + c * 0.3;
    assert (whole * n) / n == whole;
  }

  /** Whatever the records, the score is the rounded mean merit, cut off at none and at a hundred; without records it is
      none. */
  lemma ScoreIsCutMerit(records: seq<Record>)
    ensures records == [] ==> ComputeTrustScore(records) == 0.0
    ensures records != [] ==>
      var mean := Merits(records) / |records| as real;
      var rounded := (mean + 0.5).Floor as real;
      ComputeTrustScore(records) == if rounded < 0.0 then 0.0 else if rounded > 100.0 then 100.0 else rounded
  {
    if records != [] {
      MeritsSplit(records);
      DistributeDivision(Fulfilled(records), Obligations(records), Audits(records), |records| as real);
    }
  }

  /** With records in range the score is the rounded mean merit, and the cut never acts. */
  lemma ScoreIsMeanMerit(records: seq<Record>)
    requires records != [] && forall x | x in records :: InRange(x)
    ensures ComputeTrustScore(records) == Round(Merits(records) / |records| as real)
  {
    var n := |records| as real;
    MeritsSplit(records);
    MeritsInRange(records);
    DistributeDivision(Fulfilled(records), Obligations(records), Audits(records), n);
    QuotientBounds(Merits(records), n, 100.0);
  }

  lemma MeanGrows(sum: real, n: real)
    requires n > 0.0 && sum <= 100.0 * n
    ensures sum / n <= (sum + 100.0) / (n + 1.0)
  {
    var p, q := sum / n, (sum + 100.0) / (n + 1.0);
    assert p * n == sum && q * (n + 1.0) == sum + 100.0;
    CancelRight(p, 100.0, n);
    assert p * (n + 1.0) == p * n + p;
    CancelRight(p, q, n + 1.0);
  }

  predicate Perfect(record: Record) {
    InRange(record) && record.fulfilled && record.obligationsTotal >= 1.0
    && record.obligationsMet == record.obligationsTotal && record.auditIntegrityScore == 100.0
  }

  lemma WholeShare(a: real, b: real)
    requires a == b > 0.0
    ensures a / b == 1.0
  {
    var q := a / b;
    assert q * b == a;
    CancelRight(q, 1.0, b);
    CancelRight(1.0, q, b);
  }

  lemma MeritsOfPerfect(records: seq<Record>, record: Record)
    requires Perfect(record)
    ensures Merits(records + [record]) == Merits(records) + 100.0
  {
    var all := records + [record];
    assert all[..|all| - 1] == records;
    var total := record.obligationsTotal;
    WholeShare(record.obligationsMet, total);
  }

  lemma RoundMonotone(a: real, b: real)
    requires a <= b
    ensures Round(a) <= Round(b)
  {
    FloorMonotone(a + 0.5, b + 0.5);
  }

  lemma FloorMonotone(a: real, b: real)
    requires a <= b
    ensures a.Floor <= b.Floor && a.Floor as real <= b.Floor as real
  {
    var low, high := a.Floor, b.Floor;
    assert low as real <= a && b < (high + 1) as real;
    assert low as real < (high + 1) as real;
    assert low < high + 1;
  }

  /** A perfect record never lowers a score. */
  lemma PerfectNeverLowers(records: seq<Record>, record: Record)
    requires (forall x | x in records :: InRange(x)) && Perfect(record)
    ensures ComputeTrustScore(records + [record]) >= ComputeTrustScore(records)
  {
    if records != [] {
      var n := |records| as real;
      var before, after := Merits(records) / n, (Merits(records) + 100.0) / (n + 1.0);
      ScoreIsMeanMerit(records);
      ScoreIsMeanMerit(records + [record]);
      MeritsOfPerfect(records, record);
      MeritsInRange(records);
      MeanGrows(Merits(records), n);
      RoundMonotone(before, after);
      assert |records + [record]| as real == n + 1.0;
    }
  }

  /** A fulfilled record with a perfect audit but no obligations is worth 70, not 100. */
  lemma NoObligationsCosts(providerId: string)
    ensures ComputeTrustScore([Record(providerId, true, 0.0, 0.0, 100.0)]) == 70.0
  {
    var record := Record(providerId, true, 0.0, 0.0, 100.0);
    ScoreIsMeanMerit([record]);
    assert [record][..0] == [];
    assert Merits([record]) == Merits([]) + Merit(record);
  }

  /** The market once a record is appended to its provider's profile. */
  function WithRecord(m: Market, record: Record): Market {
    var k := FindProfile(m.reputations, record.providerId);
    if k == |m.reputations| then m
    else
      var profile := m.reputations[k];
      var records := profile.records + [record];
      m.(reputations := m.reputations[k := profile.(records := records, score := ComputeTrustScore(records))])
  }

  /** A record goes to the first profile kept for its provider, and to no other, and the score there is computed anew;
      without a profile it is dropped. */
  lemma RecordTells(m: Market, record: Record)
    ensures var n := WithRecord(m, record);
      && n.providers == m.providers && n.offers == m.offers && |n.reputations| == |m.reputations|
      && forall i | 0 <= i < |m.reputations| :: n.reputations[i] ==
           if m.reputations[i].providerId == record.providerId
             && (forall j | 0 <= j < i :: m.reputations[j].providerId != record.providerId)
           then m.reputations[i].(
             records := m.reputations[i].records + [record],
             score := ComputeTrustScore(m.reputations[i].records + [record]))
           else m.reputations[i]
  {
  }

  /** No other provider's reputation moves. */
  lemma RecordIsLocal(m: Market, record: Record, id: string)
    requires id != record.providerId
    ensures ReputationScore(WithRecord(m, record).reputations, id) == ReputationScore(m.reputations, id)
  {
    FindUnmoved(m.reputations, WithRecord(m, record).reputations, id);
  }

  lemma {:induction false} FindUnmoved(a: seq<Profile>, b: seq<Profile>, id: string)
    requires |a| == |b| && forall i | 0 <= i < |a| :: a[i].providerId == b[i].providerId
    ensures FindProfile(a, id) == FindProfile(b, id)
  {
    if a != [] {
      FindUnmoved(a[1..], b[1..], id);
    }
  }

  // ---------- the runtime ----------

  class CapabilityBrokerageRuntime {
    var providers: seq<Provider>
    var offers: seq<Offer>
    var reputations: seq<Profile>

    function Contents(): Market
      reads this
    {
      Market(providers, offers, reputations)
    }

    constructor (market: Market)
      ensures Contents() == market
    {
      providers, offers, reputations := market.providers, market.offers, market.reputations;
    }

    method PublishProvider(provider: Provider)
      modifies this
      ensures Contents() == old(Contents()).(providers := old(providers) + [provider])
    {
      providers := providers + [provider];
    }

    method PublishOffer(offer: Offer)
      modifies this
      ensures Contents() == old(Contents()).(offers := old(offers) + [offer])
    {
      offers := offers + [offer];
    }

    method AppendReputationRecord(record: Record)
      modifies this
      ensures Contents() == WithRecord(old(Contents()), record)
    {
      var k := FindProfile(reputations, record.providerId);
      if k == |reputations| {
        return;
      }
      var profile := reputations[k].(records := reputations[k].records + [record]);
      reputations := reputations[k := profile.(score := ComputeTrustScore(profile.records))];
    }

    method Route(request: Request) returns (decision: Decision)
      ensures Routes(Contents(), request, decision)
    {
      var m := Contents();
      var ranked := Ranked(m, request.capabilityId);
      for i := 0 to |ranked|
        invariant NonePassBefore(request, ranked, i)
      {
        var row := ranked[i];
        decision := EvaluateRow(request, row.offer, row.provider);
        if decision.allowed {
          FirstPassingIsBest(m, request, i);
          return;
        }
      }
      NonePassing(m, request);
      decision := Denied(request);
    }
  }
}
