/** Rank raising with its listeners in the order they stand: the exact condition under which a link keeps
    every edge in order. A route names a path from the link's target by the listener numbers it takes, so
    that routes compare as the recursion meets them. */
module ListenerOrder {
  import opened Graphs
  import opened Ranks

  type Route = seq<nat>

  /** `p` is met no later than `q`: a part of it, or ahead of it where they part. */
  predicate NotAfter(p: Route, q: Route) {
    p == [] || (q != [] && (p[0] < q[0] || (p[0] == q[0] && NotAfter(p[1..], q[1..]))))
  }

  /** Either a part of the other, or taking an earlier listener where they first part. */
  lemma {:induction false} NotAfterSpelt(p: Route, q: Route)
    ensures NotAfter(p, q) <==> p <= q || exists i :: 0 <= i < |p| && i < |q| && p[..i] == q[..i] && p[i] < q[i]
  {
    if p != [] && q != [] && p[0] == q[0] {
      NotAfterSpelt(p[1..], q[1..]);
      assert p <= q <==> p[1..] <= q[1..] by {
        assert p == [p[0]] + p[1..] && q == [q[0]] + q[1..];
      }
      if i: nat :| i < |p[1..]| && i < |q[1..]| && p[1..][..i] == q[1..][..i] && p[1..][i] < q[1..][i] {
        assert p[..i + 1] == [p[0]] + p[1..][..i] && q[..i + 1] == [q[0]] + q[1..][..i];
        assert p[i + 1] < q[i + 1];
      }
      if i: nat :| i < |p| && i < |q| && p[..i] == q[..i] && p[i] < q[i] {
        assert i > 0;
        assert p[1..][..i - 1] == p[..i][1..] && q[1..][..i - 1] == q[..i][1..];
        assert p[1..][i - 1] < q[1..][i - 1];
      }
    } else if p != [] && q != [] && p[0] < q[0] {
      assert p[..0] == q[..0];
    } else if p != [] && q != [] {
      assert forall i :: 0 < i < |p| && i < |q| ==> p[..i][0] == p[0] && q[..i][0] == q[0];
    }
  }

  lemma {:induction false} NotAfterTransitive(p: Route, q: Route, r: Route)
    requires NotAfter(p, q) && NotAfter(q, r)
    ensures NotAfter(p, r)
  {
    if p != [] && p[0] == q[0] == r[0] {
      NotAfterTransitive(p[1..], q[1..], r[1..]);
    }
  }

  lemma {:induction false} NotAfterAntisymmetric(p: Route, q: Route)
    requires NotAfter(p, q) && NotAfter(q, p)
    ensures p == q
  {
    if p != [] {
      NotAfterAntisymmetric(p[1..], q[1..]);
      assert p == [p[0]] + p[1..] && q == [q[0]] + q[1..];
    }
  }

  lemma {:induction false} NotAfterExtended(p: Route, q: Route, r: Route)
    requires NotAfter(p, q)
    ensures NotAfter(p, q + r)
  {
    if p != [] && p[0] == q[0] {
      NotAfterExtended(p[1..], q[1..], r);
      assert (q + r)[1..] == q[1..] + r;
    }
  }

  lemma {:induction false} NotAfterItself(p: Route)
    ensures NotAfter(p, p)
  {
    if p != [] {
      NotAfterItself(p[1..]);
    }
  }

  /** Taking the same listener next keeps the comparison, unless the first route stops short. */
  lemma {:induction false} NotAfterNext(p: Route, q: Route, k: nat)
    requires NotAfter(p, q) && |q| <= |p|
    ensures NotAfter(p + [k], q + [k])
  {
    if p == [] {
      NotAfterItself([k]);
    } else if p[0] == q[0] {
      NotAfterNext(p[1..], q[1..], k);
      assert (p + [k])[1..] == p[1..] + [k] && (q + [k])[1..] == q[1..] + [k];
    }
  }

  /** Whatever starts with listener `j` of a node comes ahead of its listener `i`. */
  lemma {:induction false} EarlierListener(p: Route, j: nat, i: nat, e: Route)
    requires j < i && p + [j] <= e
    ensures NotAfter(e, p + [i])
  {
    assert e[|p|] == j;
    if p != [] {
      assert e[0] == p[0] && (p + [j])[1..] == p[1..] + [j] && (p + [i])[1..] == p[1..] + [i];
      assert p[1..] + [j] <= e[1..];
      EarlierListener(p[1..], j, i, e[1..]);
    }
  }

  /** The route leads from `n` to `x`, and a raise of `n` above `limit` would reach every node on it: each
      rank is too low for the rank that the node before it would get. */
  ghost predicate Raises(g: Graph<NodeId>, a: Rank, limit: nat, n: NodeId, p: Route, x: NodeId)
    decreases |p|
  {
    && x in g && x in a && a[x] <= limit + |p|
    && if p == [] then x == n
       else exists u :: Raises(g, a, limit, n, p[..|p| - 1], u) && p[|p| - 1] < |g[u]| && g[u][p[|p| - 1]] == x
  }

  ghost predicate IsFirst(g: Graph<NodeId>, a: Rank, limit: nat, n: NodeId, p: Route, x: NodeId) {
    Raises(g, a, limit, n, p, x) && forall r :: Raises(g, a, limit, n, r, x) ==> NotAfter(p, r)
  }

  /** The first raising route to each node, in the order of the listeners, is as long as any. */
  ghost predicate FirstIsLongest(g: Graph<NodeId>, a: Rank, n: NodeId, limit: nat) {
    forall p, q, x :: IsFirst(g, a, limit, n, p, x) && Raises(g, a, limit, n, q, x) ==> |q| <= |p|
  }

  // ---- the routes by which nodes are entered ----

  /** Every node visited so far with the route it was entered by, and the rank that gave it. */
  ghost predicate Routed(g: Graph<NodeId>, a: Rank, n: NodeId, limit: nat, b: Rank, t: set<NodeId>, E: map<NodeId, Route>) {
    && WellFormed(g) && a.Keys == g.Keys == b.Keys && t <= g.Keys && E.Keys == t
    && (forall x :: x in t ==> Raises(g, a, limit, n, E[x], x) && b[x] == limit + |E[x]| + 1)
    && (forall x :: x in g && x !in t ==> b[x] == a[x])
  }

  /** Listener `k` of `u` was raised, if it was to be, by a route not after the one through `u`. */
  ghost predicate Met(g: Graph<NodeId>, a: Rank, b: Rank, E: map<NodeId, Route>, u: NodeId, k: nat)
    requires u in g && k < |g[u]| && WellFormed(g) && a.Keys == g.Keys && u in b && u in E
  {
    var x := g[u][k];
    assert x in g[u];
    a[x] <= b[u] ==> x in E && NotAfter(E[x], E[u] + [k])
  }

  /** All listeners of visited nodes have been examined, except those of the nodes in `open`. */
  ghost predicate AllMet(g: Graph<NodeId>, a: Rank, b: Rank, E: map<NodeId, Route>, open: set<NodeId>)
    requires WellFormed(g) && a.Keys == g.Keys == b.Keys && E.Keys <= g.Keys
  {
    forall u, k :: u in E && u !in open && 0 <= k < |g[u]| ==> Met(g, a, b, E, u, k)
  }

  /** Everything entered so far was entered by a route not after `p`. */
  ghost predicate Behind(E: map<NodeId, Route>, p: Route) {
    forall x :: x in E ==> NotAfter(E[x], p)
  }

  /** `E'` adds to `E` only routes that go on from `p`. */
  ghost predicate GoesOn(E: map<NodeId, Route>, E': map<NodeId, Route>, p: Route) {
    E.Keys <= E'.Keys && forall x :: x in E' ==> if x in E then E'[x] == E[x] else p <= E'[x]
  }

  ghost predicate State(g: Graph<NodeId>, a: Rank, n: NodeId, limit: nat, b: Rank, t: set<NodeId>, E: map<NodeId, Route>,
                        open: set<NodeId>) {
    Routed(g, a, n, limit, b, t, E) && AllMet(g, a, b, E, open)
  }

  /** In the loop over the listeners of `m`, entered by route `p`, the first `i` examined. */
  ghost predicate InLoop(g: Graph<NodeId>, a: Rank, n: NodeId, limit: nat, b: Rank, t: set<NodeId>, E: map<NodeId, Route>,
                         open: set<NodeId>, m: NodeId, p: Route, i: nat) {
    && State(g, a, n, limit, b, t, E, open + {m}) && m in t && E[m] == p && i <= |g[m]| && Behind(E, p + [i])
    && forall k :: 0 <= k < i ==> Met(g, a, b, E, m, k)
  }

  lemma EnterNode(g: Graph<NodeId>, a: Rank, n: NodeId, limit: nat, b: Rank, t: set<NodeId>, E: map<NodeId, Route>,
                  open: set<NodeId>, m: NodeId, p: Route)
    requires State(g, a, n, limit, b, t, E, open) && Behind(E, p) && m in g && m !in t && Raises(g, a, limit, n, p, m)
    ensures InLoop(g, a, n, limit, b[m := limit + |p| + 1], t + {m}, E[m := p], open, m, p, 0)
    ensures GoesOn(E, E[m := p], p)
  {
    hide Raises, NotAfter;
    var b', E' := b[m := limit + |p| + 1], E[m := p];
    forall x | x in E'
      ensures NotAfter(E'[x], p + [0])
    {
      NotAfterItself(p);
      NotAfterExtended(E'[x], p, [0]);
    }
    forall u, k | u in E' && u !in open + {m} && 0 <= k < |g[u]|
      ensures Met(g, a, b', E', u, k)
    {
      assert Met(g, a, b, E, u, k);
    }
  }

  /** The route to listener `i` of `m`. */
  lemma RouteToListener(g: Graph<NodeId>, a: Rank, n: NodeId, limit: nat, m: NodeId, p: Route, i: nat)
    requires Raises(g, a, limit, n, p, m) && i < |g[m]| && g[m][i] in g && g[m][i] in a && a[g[m][i]] <= limit + |p| + 1
    ensures Raises(g, a, limit, n, p + [i], g[m][i])
  {
    assert (p + [i])[..|p + [i]| - 1] == p;
  }

  lemma NextListener(g: Graph<NodeId>, a: Rank, n: NodeId, limit: nat, b: Rank, t: set<NodeId>, E: map<NodeId, Route>,
                     open: set<NodeId>, m: NodeId, p: Route, i: nat, b': Rank, t': set<NodeId>, E': map<NodeId, Route>)
    requires InLoop(g, a, n, limit, b, t, E, open, m, p, i) && i < |g[m]|
    requires State(g, a, n, limit, b', t', E', open + {m}) && GoesOn(E, E', p + [i])
    requires g[m][i] in a && (a[g[m][i]] <= limit + |p| + 1 ==> g[m][i] in E' && NotAfter(E'[g[m][i]], p + [i]))
    ensures InLoop(g, a, n, limit, b', t', E', open, m, p, i + 1)
  {
    hide Raises, NotAfter, AllMet;
    forall x | x in E'
      ensures NotAfter(E'[x], p + [i + 1])
    {
      if x in E {
        NotAfterItself(p + [i]);
        EarlierListener(p, i, i + 1, p + [i]);
        NotAfterTransitive(E[x], p + [i], p + [i + 1]);
      } else {
        EarlierListener(p, i, i + 1, E'[x]);
      }
    }
    forall k | 0 <= k < i + 1
      ensures Met(g, a, b', E', m, k)
    {
      if k < i {
        assert Met(g, a, b, E, m, k);
      }
    }
  }

  lemma LeaveNode(g: Graph<NodeId>, a: Rank, n: NodeId, limit: nat, b: Rank, t: set<NodeId>, E: map<NodeId, Route>,
                  open: set<NodeId>, m: NodeId, p: Route)
    requires m in g && InLoop(g, a, n, limit, b, t, E, open, m, p, |g[m]|)
    ensures State(g, a, n, limit, b, t, E, open)
  {
    hide Raises, NotAfter, Met;
  }

  lemma GoesOnBoth(E: map<NodeId, Route>, E': map<NodeId, Route>, E'': map<NodeId, Route>, p: Route, q: Route)
    requires GoesOn(E, E', p) && GoesOn(E', E'', q) && p <= q
    ensures GoesOn(E, E'', p)
  {}

  /** Every run of the recursion with the routes by which it enters nodes. */
  lemma {:induction false} RaiseRouted(g: Graph<NodeId>, a: Rank, n: NodeId, limit: nat, b: Rank, t: set<NodeId>,
                                       E: map<NodeId, Route>, open: set<NodeId>, m: NodeId, p: Route)
    returns (E': map<NodeId, Route>)
    requires State(g, a, n, limit, b, t, E, open) && Behind(E, p)
    requires m in g && m in a && WellFormed(g) && b.Keys == g.Keys && t <= g.Keys && t == E.Keys
    requires a[m] <= limit + |p| ==> Raises(g, a, limit, n, p, m)
    ensures var (b', t') := Raise(g, m, limit + |p|, b, t);
            State(g, a, n, limit, b', t', E', open) && GoesOn(E, E', p)
            && (a[m] <= limit + |p| ==> m in E' && NotAfter(E'[m], p))
    decreases g.Keys - t, 0, 0
  {
    hide State, Raises, NotAfter;
    RankOf(g, a, n, limit, b, t, E, open, m);
    if b[m] > limit + |p| || m in t {
      E' := E;
    } else {
      assert g.Keys - (t + {m}) < g.Keys - t by { assert m in g.Keys - t; }
      EnterNode(g, a, n, limit, b, t, E, open, m, p);
      E' := RaiseFromRouted(g, a, n, limit, b[m := limit + |p| + 1], t + {m}, E[m := p], open, m, p, 0);
      GoesOnBoth(E, E[m := p], E', p, p);
      NotAfterItself(p);
    }
  }

  lemma RankOf(g: Graph<NodeId>, a: Rank, n: NodeId, limit: nat, b: Rank, t: set<NodeId>, E: map<NodeId, Route>,
               open: set<NodeId>, m: NodeId)
    requires State(g, a, n, limit, b, t, E, open) && m in g
    ensures m in a && m in b && (m !in t ==> b[m] == a[m])
  {}

  lemma {:induction false} RaiseFromRouted(g: Graph<NodeId>, a: Rank, n: NodeId, limit: nat, b: Rank, t: set<NodeId>,
                                           E: map<NodeId, Route>, open: set<NodeId>, m: NodeId, p: Route, i: nat)
    returns (E': map<NodeId, Route>)
    requires InLoop(g, a, n, limit, b, t, E, open, m, p, i)
    requires m in g && i <= |g[m]| && WellFormed(g) && b.Keys == g.Keys && t <= g.Keys
    ensures var (b', t') := RaiseFrom(g, m, i, limit + |p| + 1, b, t);
            State(g, a, n, limit, b', t', E', open) && GoesOn(E, E', p)
    decreases g.Keys - t, 1, |g[m]| - i
  {
    hide InLoop, Raises, NotAfter;
    if i == |g[m]| {
      LeaveNode(g, a, n, limit, b, t, E, open, m, p);
      E' := E;
    } else {
      assert g[m][i] in g[m];
      LoopFacts(g, a, n, limit, b, t, E, open, m, p, i);
      var below := RaiseRouted(g, a, n, limit, b, t, E, open + {m}, g[m][i], p + [i]);
      var (b', t') := Raise(g, g[m][i], limit + |p| + 1, b, t);
      NextListener(g, a, n, limit, b, t, E, open, m, p, i, b', t', below);
      E' := RaiseFromRouted(g, a, n, limit, b', t', below, open, m, p, i + 1);
      GoesOnBoth(E, below, E', p, p);
    }
  }

  lemma LoopFacts(g: Graph<NodeId>, a: Rank, n: NodeId, limit: nat, b: Rank, t: set<NodeId>, E: map<NodeId, Route>,
                  open: set<NodeId>, m: NodeId, p: Route, i: nat)
    requires InLoop(g, a, n, limit, b, t, E, open, m, p, i) && i < |g[m]|
    ensures State(g, a, n, limit, b, t, E, open + {m}) && Behind(E, p + [i]) && E.Keys == t && a.Keys == g.Keys
    ensures g[m][i] in g && g[m][i] in a && (a[g[m][i]] <= limit + |p| + 1 ==> Raises(g, a, limit, n, p + [i], g[m][i]))
  {
    assert g[m][i] in g[m];
    if a[g[m][i]] <= limit + |p| + 1 {
      RouteToListener(g, a, n, limit, m, p, i);
    }
    hide Raises, NotAfter, AllMet;
  }

  // ---- nodes are entered by their first route, as long as first routes are longest ----

  /** A node entered by its first raising route was entered by a longest one. */
  ghost predicate EnteredLongest(g: Graph<NodeId>, a: Rank, n: NodeId, limit: nat, E: map<NodeId, Route>) {
    forall x, q :: x in E && IsFirst(g, a, limit, n, E[x], x) && Raises(g, a, limit, n, q, x) ==> |q| <= |E[x]|
  }

  /** After the raise: every node on a raising route was entered, by its first route and a longest one. */
  lemma {:induction false} EnteredFirst(g: Graph<NodeId>, a: Rank, n: NodeId, limit: nat, b: Rank, t: set<NodeId>,
                                        E: map<NodeId, Route>, x: NodeId, q: Route)
    requires Ordered(g, a) && State(g, a, n, limit, b, t, E, {}) && n in E && E[n] == []
    requires EnteredLongest(g, a, n, limit, E) && Raises(g, a, limit, n, q, x)
    ensures x in g && x in E && IsFirst(g, a, limit, n, E[x], x) && |q| <= |E[x]|
    decreases if x in a then a[x] else 0, 1
  {
    hide NotAfter, AllMet;
    EnteredNotAfter(g, a, n, limit, b, t, E, x, q);
    forall r | Raises(g, a, limit, n, r, x)
      ensures NotAfter(E[x], r)
    {
      EnteredNotAfter(g, a, n, limit, b, t, E, x, r);
    }
  }

  lemma {:induction false} EnteredNotAfter(g: Graph<NodeId>, a: Rank, n: NodeId, limit: nat, b: Rank, t: set<NodeId>,
                                           E: map<NodeId, Route>, x: NodeId, q: Route)
    requires Ordered(g, a) && State(g, a, n, limit, b, t, E, {}) && n in E && E[n] == []
    requires EnteredLongest(g, a, n, limit, E) && Raises(g, a, limit, n, q, x)
    ensures x in E && NotAfter(E[x], q)
    decreases if x in a then a[x] else 0, 0
  {
    if q != [] {
      var u, k := LastStep(g, a, n, limit, q, x);
      var q' := q[..|q| - 1];
      EnteredFirst(g, a, n, limit, b, t, E, u, q');
      assert Met(g, a, b, E, u, k);
      NotAfterNext(E[u], q', k);
      assert q == q' + [k];
      NotAfterTransitive(E[x], E[u] + [k], q);
    }
  }

  lemma LastStep(g: Graph<NodeId>, a: Rank, n: NodeId, limit: nat, q: Route, x: NodeId) returns (u: NodeId, k: nat)
    requires Ordered(g, a) && Raises(g, a, limit, n, q, x) && q != []
    ensures u in g && k == q[|q| - 1] < |g[u]| && g[u][k] == x && x in a && u in a && a[u] < a[x] <= limit + |q|
    ensures Raises(g, a, limit, n, q[..|q| - 1], u)
  {
    u :| Raises(g, a, limit, n, q[..|q| - 1], u) && q[|q| - 1] < |g[u]| && g[u][q[|q| - 1]] == x;
    k := q[|q| - 1];
    assert x in g[u];
  }

  /** When the order survives the raise, every raising route lifts its end by its length. */
  lemma {:induction false} RouteLifts(g: Graph<NodeId>, a: Rank, n: NodeId, limit: nat, b: Rank, q: Route, x: NodeId)
    requires Ordered(g, a) && Ordered(g, b) && n in g && b[n] > limit && Raises(g, a, limit, n, q, x)
    ensures x in b && b[x] > limit + |q|
    decreases |q|
  {
    if q != [] {
      var u, k := LastStep(g, a, n, limit, q, x);
      RouteLifts(g, a, n, limit, b, q[..|q| - 1], u);
      assert g[u][k] in g[u];
    }
  }

  lemma {:induction false} StartsLow(g: Graph<NodeId>, a: Rank, n: NodeId, limit: nat, q: Route, x: NodeId)
    requires Raises(g, a, limit, n, q, x)
    ensures n in g && n in a && a[n] <= limit && Raises(g, a, limit, n, [], n)
    decreases |q|
  {
    if q != [] {
      var u :| Raises(g, a, limit, n, q[..|q| - 1], u);
      StartsLow(g, a, n, limit, q[..|q| - 1], u);
    }
  }

  /** The whole raise with its routes. */
  lemma RoutesOf(g: Graph<NodeId>, a: Rank, n: NodeId, limit: nat) returns (E: map<NodeId, Route>)
    requires Ordered(g, a) && n in g && a[n] <= limit
    ensures var (b, t) := Raise(g, n, limit, a, {}); State(g, a, n, limit, b, t, E, {}) && n in E && E[n] == []
  {
    hide Raise, State, Raises;
    NothingRouted(g, a, n, limit);
    E := RaiseRouted(g, a, n, limit, a, {}, map[], {}, n, []);
  }

  lemma NothingRouted(g: Graph<NodeId>, a: Rank, n: NodeId, limit: nat)
    requires Ordered(g, a) && n in g && a[n] <= limit
    ensures State(g, a, n, limit, a, {}, map[], {}) && Raises(g, a, limit, n, [], n)
  {}

  /** Raising keeps the order of the edges exactly when every first raising route is a longest one. */
  lemma RaiseKeepsOrder(g: Graph<NodeId>, n: NodeId, limit: nat, a: Rank)
    requires Ordered(g, a) && n in g
    ensures Ordered(g, Raise(g, n, limit, a, {}).0) <==> FirstIsLongest(g, a, n, limit)
  {
    hide Raise, Raises;
    var (b, t) := Raise(g, n, limit, a, {});
    if a[n] > limit {
      RaiseMonotone(g, n, limit, a);
      forall q, x
        ensures !Raises(g, a, limit, n, q, x)
      {
        if Raises(g, a, limit, n, q, x) {
          StartsLow(g, a, n, limit, q, x);
        }
      }
    } else {
      var E := RoutesOf(g, a, n, limit);
      if Ordered(g, b) {
        OrderedFirst(g, a, n, limit, b, t, E);
      }
      if FirstIsLongest(g, a, n, limit) {
        FirstOrdered(g, a, n, limit, b, t, E);
      }
    }
  }

  lemma OrderedFirst(g: Graph<NodeId>, a: Rank, n: NodeId, limit: nat, b: Rank, t: set<NodeId>, E: map<NodeId, Route>)
    requires Ordered(g, a) && State(g, a, n, limit, b, t, E, {}) && n in E && E[n] == [] && Ordered(g, b)
    ensures FirstIsLongest(g, a, n, limit)
  {
    hide NotAfter, AllMet;
    forall x, q | x in E && Raises(g, a, limit, n, q, x)
      ensures |q| <= |E[x]|
    {
      RouteLifts(g, a, n, limit, b, q, x);
    }
    forall p, q, x | IsFirst(g, a, limit, n, p, x) && Raises(g, a, limit, n, q, x)
      ensures |q| <= |p|
    {
      EnteredFirst(g, a, n, limit, b, t, E, x, p);
      NotAfterAntisymmetric(p, E[x]);
    }
  }

  lemma FirstOrdered(g: Graph<NodeId>, a: Rank, n: NodeId, limit: nat, b: Rank, t: set<NodeId>, E: map<NodeId, Route>)
    requires Ordered(g, a) && State(g, a, n, limit, b, t, E, {}) && n in E && E[n] == [] && FirstIsLongest(g, a, n, limit)
    ensures Ordered(g, b)
  {
    forall u, x | u in g && x in g[u]
      ensures b[u] < b[x]
    {
      var k :| 0 <= k < |g[u]| && g[u][k] == x;
      EdgeUp(g, a, n, limit, b, t, E, u, k);
    }
  }

  lemma EdgeUp(g: Graph<NodeId>, a: Rank, n: NodeId, limit: nat, b: Rank, t: set<NodeId>, E: map<NodeId, Route>,
               u: NodeId, k: nat)
    requires Ordered(g, a) && State(g, a, n, limit, b, t, E, {}) && n in E && E[n] == [] && FirstIsLongest(g, a, n, limit)
    requires u in g && k < |g[u]|
    ensures g[u][k] in b && u in b && b[u] < b[g[u][k]]
  {
    hide NotAfter, AllMet;
    var x := g[u][k];
    assert x in g[u] && a[u] < a[x] <= b[x];
    if u in t && a[x] <= b[u] {
      RouteToListener(g, a, n, limit, u, E[u], k);
      EnteredFirst(g, a, n, limit, b, t, E, x, E[u] + [k]);
    }
  }
}
