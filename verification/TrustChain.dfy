/** The delegation graph search and the check of its result. */
module TrustChain {
  import opened Options

  type Time = int

  datatype Grant = Grant(
    grantId: string,
    delegator: string,
    delegate: string,
    allowedActions: seq<string>,
    allowedScopes: seq<string>,
    expiresAt: Option<Time>,
    revokedAt: Option<Time>)

  datatype Link = Link(from: string, to: string, grantId: string)

  datatype Reason =
    | NoTrustPath
    | ChainMarkedInvalid
    | EmptyTrustPath
    | MaxDelegationDepthExceeded
    | BrokenTrustLink

  datatype Chain = Chain(
    rootActorId: string,
    delegatedActors: seq<string>,
    trustPath: seq<Link>,
    valid: bool,
    evaluatedAt: Time,
    reasons: seq<Reason>)

  /** A queued search node: the actor reached and the links and actors on the way. */
  datatype Entry = Entry(actorId: string, path: seq<Link>, actors: seq<string>)

  // ---------- routes: chains of grants, named by their positions in the supplied list ----------

  type Route = seq<nat>

  ghost function Init(p: Route): Route
    requires p != []
  {
    p[..|p| - 1]
  }

  ghost function Last(p: Route): nat
    requires p != []
  {
    p[|p| - 1]
  }

  /** `p` lists supplied grants that lead, each from where the one before ended, from `root` to `target`. */
  ghost predicate IsRoute(grants: seq<Grant>, root: string, target: string, p: Route)
    decreases |p|
  {
    if p == [] then root == target
    else
      && Last(p) < |grants|
      && grants[Last(p)].delegate == target
      && IsRoute(grants, root, grants[Last(p)].delegator, Init(p))
  }

  ghost predicate Reachable(grants: seq<Grant>, root: string, target: string) {
    exists p :: IsRoute(grants, root, target, p)
  }

  ghost predicate IsLeastRoute(grants: seq<Grant>, root: string, target: string, p: Route) {
    && IsRoute(grants, root, target, p)
    && forall q | IsRoute(grants, root, target, q) :: RouteLeq(p, q)
  }

  ghost predicate InRange(grants: seq<Grant>, p: Route) {
    forall i | 0 <= i < |p| :: p[i] < |grants|
  }

  function LinkOf(g: Grant): Link {
    Link(g.delegator, g.delegate, g.grantId)
  }

  ghost function Links(grants: seq<Grant>, p: Route): seq<Link>
    requires InRange(grants, p)
  {
    seq(|p|, i requires 0 <= i < |p| =>
      var g := grants[p[i]]; Link(g.delegator, g.delegate, g.grantId))
  }

  ghost function Delegates(grants: seq<Grant>, p: Route): seq<string>
    requires InRange(grants, p)
  {
    seq(|p|, i requires 0 <= i < |p| => grants[p[i]].delegate)
  }

  /** Fewer grants first; among equally long routes, the one that first takes an earlier grant. */
  ghost predicate RouteLeq(p: Route, q: Route) {
    |p| < |q| || (|p| == |q| && LexLeq(p, q))
  }

  ghost predicate LexLeq(p: Route, q: Route)
    requires |p| == |q|
  {
    p == [] || if Init(p) == Init(q) then Last(p) <= Last(q) else LexLeq(Init(p), Init(q))
  }

  /** `q` is larger than `p` where they first differ. */
  ghost predicate DiffersAt(p: Route, q: Route, k: nat)
    requires |p| == |q|
  {
    k < |p| && p[..k] == q[..k] && p[k] < q[k]
  }

  /** `LexLeq` is the lexicographic order: the first difference decides. */
  lemma {:induction false} LexLeqIsLexicographic(p: Route, q: Route)
    requires |p| == |q|
    ensures LexLeq(p, q) <==> p == q || exists k: nat :: DiffersAt(p, q, k)
  {
    if p != [] {
      LexLeqIsLexicographic(Init(p), Init(q));
      assert p == Init(p) + [Last(p)] && q == Init(q) + [Last(q)];
      forall k: nat ensures DiffersAt(p, q, k) <==>
          DiffersAt(Init(p), Init(q), k) || (k == |p| - 1 && Init(p) == Init(q) && Last(p) < Last(q))
      {
        if k < |p| - 1 {
          assert p[..k] == Init(p)[..k] && q[..k] == Init(q)[..k];
        }
      }
      if Init(p) == Init(q) && Last(p) < Last(q) {
        assert DiffersAt(p, q, |p| - 1);
      }
    }
  }

  lemma {:induction false} LexReflexive(p: Route)
    ensures LexLeq(p, p)
  {
  }

  lemma {:induction false} LexAntisymmetric(p: Route, q: Route)
    requires |p| == |q| && LexLeq(p, q) && LexLeq(q, p)
    ensures p == q
  {
    if p != [] {
      if Init(p) != Init(q) {
        LexAntisymmetric(Init(p), Init(q));
      }
      assert p == Init(p) + [Last(p)] && q == Init(q) + [Last(q)];
    }
  }

  lemma {:induction false} LexTransitive(p: Route, q: Route, r: Route)
    requires |p| == |q| == |r| && LexLeq(p, q) && LexLeq(q, r)
    ensures LexLeq(p, r)
  {
    if p != [] && Init(p) != Init(q) && Init(q) != Init(r) {
      LexTransitive(Init(p), Init(q), Init(r));
      if Init(p) == Init(r) {
        LexAntisymmetric(Init(p), Init(q));
      }
    }
  }

  lemma RouteLeqTransitive(p: Route, q: Route, r: Route)
    requires RouteLeq(p, q) && RouteLeq(q, r)
    ensures RouteLeq(p, r)
  {
    if |p| == |q| == |r| {
      LexTransitive(p, q, r);
    }
  }

  /** Taking one more grant, not earlier than the other's, keeps the order. */
  lemma RouteLeqExtend(p: Route, q: Route, g: nat, h: nat)
    requires RouteLeq(p, q)
    requires p == q ==> g <= h
    ensures RouteLeq(p + [g], q + [h])
  {
    assert Init(p + [g]) == p && Init(q + [h]) == q;
  }

  lemma RouteUnique(grants: seq<Grant>, root: string, a: string, b: string, p: Route)
    requires IsRoute(grants, root, a, p) && IsRoute(grants, root, b, p)
    ensures a == b
  {
  }

  lemma {:induction false} RouteInRange(grants: seq<Grant>, root: string, a: string, p: Route)
    requires IsRoute(grants, root, a, p)
    ensures InRange(grants, p)
    decreases |p|
  {
    if p != [] {
      RouteInRange(grants, root, grants[Last(p)].delegator, Init(p));
      assert p == Init(p) + [Last(p)];
    }
  }

  lemma ExtendRoute(grants: seq<Grant>, root: string, p: Route, g: nat)
    requires g < |grants| && IsRoute(grants, root, grants[g].delegator, p)
    ensures IsRoute(grants, root, grants[g].delegate, p + [g])
  {
    assert Init(p + [g]) == p;
  }

  /** A route's links join up, start at the root and end at the target. */
  lemma {:induction false} RouteLinks(grants: seq<Grant>, root: string, target: string, p: Route)
    requires IsRoute(grants, root, target, p)
    ensures InRange(grants, p)
    ensures p != [] ==> Links(grants, p)[0].from == root && Links(grants, p)[|p| - 1].to == target
    ensures forall i | 1 <= i < |p| :: Links(grants, p)[i - 1].to == Links(grants, p)[i].from
    decreases |p|
  {
    RouteInRange(grants, root, target, p);
    if p != [] {
      var q := Init(p);
      RouteLinks(grants, root, grants[Last(p)].delegator, q);
      assert forall i | 0 <= i < |q| :: Links(grants, q)[i] == Links(grants, p)[i];
    }
  }

  // ---------- the outgoing grants of an actor ----------

  ghost function Outgoing(grants: seq<Grant>, n: nat, a: string): Route
    requires n <= |grants|
  {
    if n == 0 then []
    else Outgoing(grants, n - 1, a) + if grants[n - 1].delegator == a then [n - 1] else []
  }

  lemma {:induction false} OutgoingCorrect(grants: seq<Grant>, n: nat, a: string)
    requires n <= |grants|
    ensures forall g: nat :: g in Outgoing(grants, n, a) <==> g < n && grants[g].delegator == a
    ensures forall i, j | 0 <= i < j < |Outgoing(grants, n, a)| ::
      Outgoing(grants, n, a)[i] < Outgoing(grants, n, a)[j]
  {
    if n > 0 {
      OutgoingCorrect(grants, n - 1, a);
      var prev := Outgoing(grants, n - 1, a);
      assert forall i | 0 <= i < |prev| :: prev[i] in prev;
    }
  }

  /** How many grants leave the given actors: each is enqueued once when its actor is expanded. */
  ghost function Leaving(grants: seq<Grant>, n: nat, actors: set<string>): nat
    requires n <= |grants|
  {
    if n == 0 then 0
    else Leaving(grants, n - 1, actors) + if grants[n - 1].delegator in actors then 1 else 0
  }

  lemma {:induction false} LeavingOneMore(grants: seq<Grant>, n: nat, actors: set<string>, v: string)
    requires n <= |grants| && v !in actors
    ensures Leaving(grants, n, actors + {v}) == Leaving(grants, n, actors) + |Outgoing(grants, n, v)|
  {
    if n > 0 {
      LeavingOneMore(grants, n - 1, actors, v);
    }
  }

  lemma {:induction false} LeavingBounded(grants: seq<Grant>, n: nat, actors: set<string>)
    requires n <= |grants|
    ensures Leaving(grants, n, actors) <= n
    ensures actors == {} ==> Leaving(grants, n, actors) == 0
  {
    if n > 0 {
      LeavingBounded(grants, n - 1, actors);
    }
  }

  // ---------- the search state ----------

  /** Every settled actor carries its least route. */
  ghost predicate Settled(grants: seq<Grant>, root: string, best: map<string, Route>) {
    forall u | u in best ::
      && IsRoute(grants, root, u, best[u])
      && forall q | IsRoute(grants, root, u, q) :: RouteLeq(best[u], q)
  }

  /** A queued route extends the route of a settled actor, no later than the last one expanded. */
  ghost predicate Extends(grants: seq<Grant>, best: map<string, Route>, last: Route, r: Route) {
    r != [] ==>
      && Last(r) < |grants|
      && grants[Last(r)].delegator in best
      && Init(r) == best[grants[Last(r)].delegator]
      && RouteLeq(Init(r), last)
  }

  ghost predicate QueueOrdered(routes: seq<Route>, last: Route) {
    && (forall i, j | 0 <= i < j < |routes| :: RouteLeq(routes[i], routes[j]))
    && (forall i | 0 <= i < |routes| :: RouteLeq(last, routes[i]))
  }

  /** Every grant leaving a settled actor ends at a settled actor or is still queued. */
  ghost predicate Covered(grants: seq<Grant>, best: map<string, Route>, routes: seq<Route>) {
    forall g | 0 <= g < |grants| && grants[g].delegator in best ::
      grants[g].delegate in best || best[grants[g].delegator] + [g] in routes
  }

  ghost predicate SearchState(
    grants: seq<Grant>, root: string, best: map<string, Route>, routes: seq<Route>, last: Route)
  {
    && Settled(grants, root, best)
    && QueueOrdered(routes, last)
    && (forall r | r in routes :: Extends(grants, best, last, r))
    && Covered(grants, best, routes)
    && (root in best || routes == [[]])
    && ([] in routes ==> routes == [[]] && best == map[])
  }

  /** The head of the queue is at most every route to every actor not yet settled. */
  lemma {:induction false} HeadIsLeast(
    grants: seq<Grant>, root: string, best: map<string, Route>, routes: seq<Route>, last: Route, v: string, q: Route)
    requires SearchState(grants, root, best, routes, last)
    requires v !in best && IsRoute(grants, root, v, q)
    ensures routes != [] && RouteLeq(routes[0], q)
    decreases |q|
  {
    if q == [] {
      assert routes == [[]];
      LexReflexive([]);
    } else {
      var u := grants[Last(q)].delegator;
      if u in best {
        var r := best[u] + [Last(q)];
        assert r in routes;
        assert RouteLeq(best[u], Init(q));
        RouteLeqExtend(best[u], Init(q), Last(q), Last(q));
        assert q == Init(q) + [Last(q)];
        assert RouteLeq(r, q);
        if r != routes[0] {
          RouteLeqTransitive(routes[0], r, q);
        }
      } else {
        HeadIsLeast(grants, root, best, routes, last, u, Init(q));
        RouteLeqTransitive(routes[0], Init(q), q);
      }
    }
  }

  /** Dropping a queued route to a settled actor keeps the search state. */
  lemma SkipKeepsState(
    grants: seq<Grant>, root: string, best: map<string, Route>, routes: seq<Route>, last: Route, v: string)
    requires SearchState(grants, root, best, routes, last)
    requires routes != [] && IsRoute(grants, root, v, routes[0]) && v in best
    ensures SearchState(grants, root, best, routes[1..], last)
  {
    forall g | 0 <= g < |grants| && grants[g].delegator in best && grants[g].delegate !in best
      ensures best[grants[g].delegator] + [g] in routes[1..]
    {
      var r := best[grants[g].delegator] + [g];
      ExtendRoute(grants, root, best[grants[g].delegator], g);
      if r == routes[0] {
        RouteUnique(grants, root, v, grants[g].delegate, r);
      }
    }
  }

  ghost function Children(p: Route, out: Route): seq<Route> {
    seq(|out|, i requires 0 <= i < |out| => p + [out[i]])
  }

  /** Settling the head's actor: the head is its least route. */
  lemma ExpandSettles(
    grants: seq<Grant>, root: string, best: map<string, Route>, routes: seq<Route>, last: Route, v: string)
    requires SearchState(grants, root, best, routes, last)
    requires routes != [] && IsRoute(grants, root, v, routes[0]) && v !in best
    ensures Settled(grants, root, best[v := routes[0]])
  {
    forall q | IsRoute(grants, root, v, q) ensures RouteLeq(routes[0], q) {
      HeadIsLeast(grants, root, best, routes, last, v, q);
    }
  }

  /** The routes that stay queued and the new ones all extend settled routes. */
  lemma ExpandExtends(
    grants: seq<Grant>, root: string, best: map<string, Route>, routes: seq<Route>, last: Route, v: string, r: Route)
    requires SearchState(grants, root, best, routes, last)
    requires routes != [] && IsRoute(grants, root, v, routes[0]) && v !in best
    requires r in routes[1..] || r in Children(routes[0], Outgoing(grants, |grants|, v))
    ensures r != [] && Extends(grants, best[v := routes[0]], routes[0], r) && RouteLeq(routes[0], r)
  {
    var p: Route := routes[0];
    var out := Outgoing(grants, |grants|, v);
    OutgoingCorrect(grants, |grants|, v);
    LexReflexive(p);
    if r in routes[1..] {
      assert r in routes;
      if r != [] {
        RouteLeqTransitive(Init(r), last, p);
      }
    } else {
      var i :| 0 <= i < |out| && r == p + [out[i]];
      assert out[i] in out && Init(r) == p && Last(r) == out[i];
    }
  }

  /** What leaves the expanded actor is queued; what was queued stays so. */
  lemma ExpandCovers(
    grants: seq<Grant>, root: string, best: map<string, Route>, routes: seq<Route>, last: Route, v: string)
    requires SearchState(grants, root, best, routes, last)
    requires routes != [] && IsRoute(grants, root, v, routes[0]) && v !in best
    ensures Covered(grants, best[v := routes[0]], routes[1..] + Children(routes[0], Outgoing(grants, |grants|, v)))
  {
    var p: Route := routes[0];
    var out := Outgoing(grants, |grants|, v);
    var kids := Children(p, out);
    OutgoingCorrect(grants, |grants|, v);
    forall g | 0 <= g < |grants| && grants[g].delegator in best[v := p] && grants[g].delegate !in best[v := p]
      ensures best[v := p][grants[g].delegator] + [g] in routes[1..] + kids
    {
      if grants[g].delegator == v {
        assert g in out;
        var i :| 0 <= i < |out| && out[i] == g;
        assert kids[i] == p + [g];
      } else {
        var r := best[grants[g].delegator] + [g];
        assert r in routes;
        ExtendRoute(grants, root, best[grants[g].delegator], g);
        assert r in routes[1..];
      }
    }
  }

  /** Settling the head's actor and queueing its outgoing grants keeps the search state. */
  lemma ExpandKeepsState(
    grants: seq<Grant>, root: string, best: map<string, Route>, routes: seq<Route>, last: Route, v: string)
    requires SearchState(grants, root, best, routes, last)
    requires routes != [] && IsRoute(grants, root, v, routes[0]) && v !in best
    ensures SearchState(
      grants, root, best[v := routes[0]],
      routes[1..] + Children(routes[0], Outgoing(grants, |grants|, v)), routes[0])
  {
    var p: Route := routes[0];
    var all := routes[1..] + Children(p, Outgoing(grants, |grants|, v));
    ExpandSettles(grants, root, best, routes, last, v);
    ExpandCovers(grants, root, best, routes, last, v);
    forall r | r in all
      ensures r != [] && Extends(grants, best[v := p], p, r) && RouteLeq(p, r)
    {
      ExpandExtends(grants, root, best, routes, last, v, r);
    }
    forall i, j | 0 <= i < j < |all| ensures RouteLeq(all[i], all[j]) {
      OldBeforeNew(grants, root, best, routes, last, v, i, j);
    }
    assert forall i | 0 <= i < |all| :: all[i] in all;
  }

  /** A route already queued precedes every extension of the head. */
  lemma QueuedBeforeChild(
    grants: seq<Grant>, root: string, best: map<string, Route>, last: Route, v: string, r: Route, p: Route, h: nat)
    requires Settled(grants, root, best) && Extends(grants, best, last, r) && r != []
    requires RouteLeq(last, p) && IsRoute(grants, root, v, p) && v !in best
    ensures RouteLeq(r, p + [h])
  {
    RouteLeqTransitive(Init(r), last, p);
    RouteLeqExtend(Init(r), p, Last(r), h);
    assert r == Init(r) + [Last(r)];
  }

  /** The queue stays in route order when the children join at its end. */
  lemma OldBeforeNew(
    grants: seq<Grant>, root: string, best: map<string, Route>, routes: seq<Route>, last: Route, v: string, i: nat,
    j: nat)
    requires Settled(grants, root, best) && QueueOrdered(routes, last)
    requires forall r | r in routes :: Extends(grants, best, last, r)
    requires routes != [] && IsRoute(grants, root, v, routes[0]) && v !in best
    requires [] !in routes[1..]
    requires i < j < |routes| - 1 + |Outgoing(grants, |grants|, v)|
    ensures
      var all := routes[1..] + Children(routes[0], Outgoing(grants, |grants|, v));
      RouteLeq(all[i], all[j])
  {
    var p: Route := routes[0];
    var n := |routes| - 1;
    var out := Outgoing(grants, |grants|, v);
    OutgoingCorrect(grants, |grants|, v);
    if i >= n {
      LexReflexive(p);
      RouteLeqExtend(p, p, out[i - n], out[j - n]);
    } else if j >= n {
      assert routes[i + 1] in routes && routes[1..][i] in routes[1..];
      QueuedBeforeChild(grants, root, best, last, v, routes[i + 1], p, out[j - n]);
    }
  }

  // ---------- the search ----------

  /** The queue entry shows the route it stands for. */
  ghost predicate Shows(grants: seq<Grant>, root: string, e: Entry, p: Route) {
    && IsRoute(grants, root, e.actorId, p)
    && InRange(grants, p)
    && e.path == Links(grants, p)
    && e.actors == [root] + Delegates(grants, p)
  }

  ghost predicate ShowsAll(grants: seq<Grant>, root: string, queue: seq<Entry>, routes: seq<Route>) {
    && |routes| == |queue|
    && forall k | 0 <= k < |queue| :: Shows(grants, root, queue[k], routes[k])
  }

  ghost function Picks(grants: seq<Grant>, out: Route): seq<Grant>
    requires InRange(grants, out)
  {
    seq(|out|, i requires 0 <= i < |out| => grants[out[i]])
  }

  ghost predicate IsAdjacency(grants: seq<Grant>, n: nat, adjacency: map<string, seq<Grant>>)
    requires n <= |grants|
  {
    forall a :: AdjacentTo(grants, n, adjacency, a)
  }

  /** The actor's list holds its outgoing grants among the first `n`, in order. */
  ghost predicate AdjacentTo(grants: seq<Grant>, n: nat, adjacency: map<string, seq<Grant>>, a: string)
    requires n <= |grants|
  {
    && InRange(grants, Outgoing(grants, n, a))
    && Picks(grants, Outgoing(grants, n, a)) == (if a in adjacency then adjacency[a] else [])
  }

  lemma AdjacencyNext(grants: seq<Grant>, i: nat, adjacency: map<string, seq<Grant>>, next: map<string, seq<Grant>>)
    requires i < |grants| && IsAdjacency(grants, i, adjacency)
    requires var key := grants[i].delegator;
      next == adjacency[key := (if key in adjacency then adjacency[key] else []) + [grants[i]]]
    ensures IsAdjacency(grants, i + 1, next)
  {
    var n := i + 1;
    forall a ensures AdjacentTo(grants, n, next, a) {
      var out := Outgoing(grants, i, a);
      assert AdjacentTo(grants, i, adjacency, a);
      if a == grants[i].delegator {
        assert Outgoing(grants, i + 1, a) == out + [i];
        assert Picks(grants, out + [i]) == Picks(grants, out) + [grants[i]];
      }
    }
  }

  method BuildAdjacency(grants: seq<Grant>) returns (adjacency: map<string, seq<Grant>>)
    ensures IsAdjacency(grants, |grants|, adjacency)
  {
    adjacency := map[];
    for i := 0 to |grants|
      invariant IsAdjacency(grants, i, adjacency)
    {
      ghost var before := adjacency;
      var existing := if grants[i].delegator in adjacency then adjacency[grants[i].delegator] else [];
      adjacency := adjacency[grants[i].delegator := existing + [grants[i]]];
      AdjacencyNext(grants, i, before, adjacency);
    }
  }

  /** Queues one entry per outgoing grant of the current actor. */
  method Push(
    grants: seq<Grant>, root: string, current: Entry, outgoing: seq<Grant>, queue: seq<Entry>,
    ghost routes: seq<Route>, ghost p: Route, ghost out: Route) returns (queue': seq<Entry>)
    requires Shows(grants, root, current, p)
    requires out == Outgoing(grants, |grants|, current.actorId)
    requires InRange(grants, out) && outgoing == Picks(grants, out)
    requires ShowsAll(grants, root, queue, routes)
    ensures ShowsAll(grants, root, queue', routes + Children(p, out))
  {
    OutgoingCorrect(grants, |grants|, current.actorId);
    queue' := queue;
    for i := 0 to |outgoing|
      invariant |queue'| == |queue| + i
      invariant forall k | 0 <= k < |queue'| :: Shows(grants, root, queue'[k], (routes + Children(p, out))[k])
    {
      var grant := outgoing[i];
      assert out[i] in out;
      ExtendRoute(grants, root, p, out[i]);
      var e := Entry(grant.delegate, current.path + [LinkOf(grant)], current.actors + [grant.delegate]);
      assert e.path == Links(grants, p + [out[i]]);
      assert e.actors == [root] + Delegates(grants, p + [out[i]]);
      queue' := queue' + [e];
    }
  }

  /** What the search loop maintains. */
  ghost predicate Searching(
    grants: seq<Grant>, root: string, target: string, queue: seq<Entry>, visited: set<string>, dequeues: nat,
    best: map<string, Route>, routes: seq<Route>, last: Route)
  {
    && visited == best.Keys && target !in visited
    && SearchState(grants, root, best, routes, last)
    && ShowsAll(grants, root, queue, routes)
    && dequeues + |queue| == 1 + Leaving(grants, |grants|, visited) <= 1 + |grants|
  }

  lemma SearchStarts(grants: seq<Grant>, root: string, target: string)
    ensures Searching(grants, root, target, [Entry(root, [], [root])], {}, 0, map[], [[]], [])
  {
    LexReflexive([]);
    LeavingBounded(grants, |grants|, {});
  }

  lemma SearchSkips(
    grants: seq<Grant>, root: string, target: string, queue: seq<Entry>, visited: set<string>, dequeues: nat,
    best: map<string, Route>, routes: seq<Route>, last: Route)
    requires Searching(grants, root, target, queue, visited, dequeues, best, routes, last)
    requires queue != [] && queue[0].actorId in visited
    ensures Searching(grants, root, target, queue[1..], visited, dequeues + 1, best, routes[1..], last)
  {
    assert Shows(grants, root, queue[0], routes[0]);
    SkipKeepsState(grants, root, best, routes, last, queue[0].actorId);
  }

  lemma SearchExpands(
    grants: seq<Grant>, root: string, target: string, queue: seq<Entry>, visited: set<string>, dequeues: nat,
    best: map<string, Route>, routes: seq<Route>, last: Route, queue': seq<Entry>)
    requires Searching(grants, root, target, queue, visited, dequeues, best, routes, last)
    requires queue != [] && queue[0].actorId !in visited && queue[0].actorId != target
    requires ShowsAll(
      grants, root, queue', routes[1..] + Children(routes[0], Outgoing(grants, |grants|, queue[0].actorId)))
    ensures Searching(
      grants, root, target, queue', visited + {queue[0].actorId}, dequeues + 1, best[queue[0].actorId := routes[0]],
      routes[1..] + Children(routes[0], Outgoing(grants, |grants|, queue[0].actorId)), routes[0])
  {
    assert Shows(grants, root, queue[0], routes[0]);
    ExpandKeepsState(grants, root, best, routes, last, queue[0].actorId);
    LeavingOneMore(grants, |grants|, visited, queue[0].actorId);
    LeavingBounded(grants, |grants|, visited + {queue[0].actorId});
  }

  lemma SearchFinds(
    grants: seq<Grant>, root: string, target: string, queue: seq<Entry>, visited: set<string>, dequeues: nat,
    best: map<string, Route>, routes: seq<Route>, last: Route)
    requires Searching(grants, root, target, queue, visited, dequeues, best, routes, last)
    requires queue == [] || queue[0].actorId == target
    ensures queue != [] ==> IsLeastRoute(grants, root, target, routes[0])
    ensures queue == [] ==> !Reachable(grants, root, target)
  {
    forall q | IsRoute(grants, root, target, q) ensures queue != [] && RouteLeq(routes[0], q) {
      HeadIsLeast(grants, root, best, routes, last, target, q);
    }
    assert queue != [] ==> Shows(grants, root, queue[0], routes[0]);
  }

  /** One loop turn past an actor that is not the target: skip it if expanded before, else expand it. */
  method Advance(
    grants: seq<Grant>, root: string, target: string, adjacency: map<string, seq<Grant>>,
    queue: seq<Entry>, visited: set<string>, ghost dequeues: nat,
    ghost best: map<string, Route>, ghost routes: seq<Route>, ghost last: Route)
    returns (
      queue': seq<Entry>, visited': set<string>,
      ghost best': map<string, Route>, ghost routes': seq<Route>, ghost last': Route)
    requires IsAdjacency(grants, |grants|, adjacency)
    requires Searching(grants, root, target, queue, visited, dequeues, best, routes, last)
    requires queue != [] && queue[0].actorId != target
    ensures Searching(grants, root, target, queue', visited', dequeues + 1, best', routes', last')
  {
    var current := queue[0];
    ghost var route := routes[0];
    assert Shows(grants, root, current, route);
    if current.actorId in visited {
      SearchSkips(grants, root, target, queue, visited, dequeues, best, routes, last);
      return queue[1..], visited, best, routes[1..], last;
    }
    var outgoing := if current.actorId in adjacency then adjacency[current.actorId] else [];
    ghost var out := Outgoing(grants, |grants|, current.actorId);
    assert AdjacentTo(grants, |grants|, adjacency, current.actorId);
    queue' := Push(grants, root, current, outgoing, queue[1..], routes[1..], route, out);
    SearchExpands(grants, root, target, queue, visited, dequeues, best, routes, last, queue');
    visited' := visited + {current.actorId};
    best', routes', last' := best[current.actorId := route], routes[1..] + Children(route, out), route;
  }

  /** `valid` exactly when the target is reachable; the path shown is then the least route:
      fewest grants, ties broken by the order of the supplied grants. `dequeues` counts loop turns. */
  method BuildTrustChain(rootActorId: string, targetActorId: string, grants: seq<Grant>, now: Time)
    returns (chain: Chain, ghost route: Route, ghost dequeues: nat)
    ensures chain.valid <==> Reachable(grants, rootActorId, targetActorId)
    ensures chain.valid ==>
      && IsLeastRoute(grants, rootActorId, targetActorId, route)
      && InRange(grants, route)
      && chain == Chain(rootActorId, Delegates(grants, route), Links(grants, route), true, now, [])
    ensures !chain.valid ==> chain == Chain(rootActorId, [], [], false, now, [NoTrustPath])
    ensures dequeues <= 1 + |grants|
  {
    var adjacency := BuildAdjacency(grants);
    var queue := [Entry(rootActorId, [], [rootActorId])];
    var visited: set<string> := {};
    dequeues, route := 0, [];
    ghost var best: map<string, Route>, routes: seq<Route>, last: Route := map[], [[]], [];
    SearchStarts(grants, rootActorId, targetActorId);
    while queue != []
      invariant Searching(grants, rootActorId, targetActorId, queue, visited, dequeues, best, routes, last)
      decreases 1 + |grants| - dequeues
    {
      var current := queue[0];
      if current.actorId == targetActorId {
        SearchFinds(grants, rootActorId, targetActorId, queue, visited, dequeues, best, routes, last);
        route := routes[0];
        assert Shows(grants, rootActorId, current, route);
        return Chain(rootActorId, current.actors[1..], current.path, true, now, []), route, dequeues + 1;
      }
      queue, visited, best, routes, last := Advance(
        grants, rootActorId, targetActorId, adjacency, queue, visited, dequeues, best, routes, last);
      dequeues := dequeues + 1;
    }
    SearchFinds(grants, rootActorId, targetActorId, queue, visited, dequeues, best, routes, last);
    chain := Chain(rootActorId, [], [], false, now, [NoTrustPath]);
  }

  // ---------- checking a chain ----------

  ghost predicate Broken(path: seq<Link>) {
    exists i | 1 <= i < |path| :: path[i - 1].to != path[i].from
  }

  /** The reasons against a chain, each listed once, in the order they are checked. */
  ghost function ChainFaults(chain: Chain, maxDepth: int): seq<Reason> {
    (if !chain.valid then [ChainMarkedInvalid] else [])
    + (if chain.trustPath == [] then [EmptyTrustPath] else [])
    + (if |chain.trustPath| > maxDepth then [MaxDelegationDepthExceeded] else [])
    + (if Broken(chain.trustPath) then [BrokenTrustLink] else [])
  }

  method FindBrokenLink(path: seq<Link>) returns (broken: bool)
    ensures broken <==> Broken(path)
  {
    var i := 1;
    while i < |path|
      invariant 1 <= i
      invariant forall k | 1 <= k < i && k < |path| :: path[k - 1].to == path[k].from
    {
      if path[i - 1].to != path[i].from {
        return true;
      }
      i := i + 1;
    }
    broken := false;
  }

  method ValidateTrustChain(chain: Chain, maxDepth: int) returns (valid: bool, reasons: seq<Reason>)
    ensures reasons == ChainFaults(chain, maxDepth)
    ensures valid <==> chain.valid && 0 < |chain.trustPath| <= maxDepth && !Broken(chain.trustPath)
  {
    reasons := [];
    if !chain.valid { reasons := reasons + [ChainMarkedInvalid]; }
    if |chain.trustPath| == 0 { reasons := reasons + [EmptyTrustPath]; }
    if |chain.trustPath| > maxDepth { reasons := reasons + [MaxDelegationDepthExceeded]; }
    var broken := FindBrokenLink(chain.trustPath);
    if broken { reasons := reasons + [BrokenTrustLink]; }
    valid := |reasons| == 0;
  }

  /** A built chain is never broken, so only an empty path or the depth limit can reject it. */
  lemma RouteNeverBroken(grants: seq<Grant>, root: string, target: string, p: Route)
    requires IsRoute(grants, root, target, p)
    ensures InRange(grants, p) && !Broken(Links(grants, p))
  {
    RouteLinks(grants, root, target, p);
  }

  /** A direct grant makes every least route to a different actor exactly one grant long. */
  lemma DirectGrantIsLeast(grants: seq<Grant>, root: string, target: string, g: nat, p: Route)
    requires g < |grants| && grants[g].delegator == root && grants[g].delegate == target
    requires root != target
    requires IsLeastRoute(grants, root, target, p)
    ensures |p| == 1
  {
    assert IsRoute(grants, root, root, []);
    ExtendRoute(grants, root, [], g);
    assert RouteLeq(p, [] + [g]);
  }
}
