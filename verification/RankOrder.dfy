/** When linking keeps every edge in order: an exact condition on the graph and the ranks before the link,
    for the listeners in the order they stand and for every order of them. */
module RankOrder {
  import opened Graphs
  import opened Ranks
  import opened ListenerOrder

  /** A path along which a raise above `limit` reaches every node: each rank is too low for the rank that
      would be given to the node before it. */
  ghost predicate RaisingPath(g: Graph<NodeId>, a: Rank, limit: nat, p: seq<NodeId>) {
    && p != [] && (forall i :: 0 <= i < |p| ==> p[i] in g && p[i] in a && a[p[i]] <= limit + i)
    && (forall i :: 0 <= i < |p| - 1 ==> p[i + 1] in g[p[i]])
  }

  ghost predicate Leads(p: seq<NodeId>, n: NodeId, x: NodeId) {
    p != [] && p[0] == n && p[|p| - 1] == x
  }

  /** All raising paths from `n` to the same node have the same length. */
  ghost predicate EvenlyRaised(g: Graph<NodeId>, a: Rank, n: NodeId, limit: nat) {
    forall p, q, x :: RaisingPath(g, a, limit, p) && RaisingPath(g, a, limit, q) && Leads(p, n, x) && Leads(q, n, x) ==> |p| == |q|
  }

  /** The same listeners, each node's list in any order. */
  ghost predicate Reordered(g: Graph<NodeId>, h: Graph<NodeId>) {
    h.Keys == g.Keys && forall n :: n in g ==> multiset(h[n]) == multiset(g[n])
  }

  /** Linking `source` to `target` leaves every edge in order, the new one included. */
  ghost predicate LinkedInOrder(g: Graph<NodeId>, source: NodeId, target: NodeId, a: Rank)
    requires Ordered(g, a) && source in g && target in g
  {
    Ordered(Linked(g, source, target), Raise(g, target, a[source], a, {}).0)
  }

  // ---- the listeners in the order they stand ----

  /** Linking keeps every edge in order exactly when the source is not below the target and the first raising
      route to each node, in the order of the listeners, is as long as any other. */
  lemma LinkKeepsOrder(g: Graph<NodeId>, source: NodeId, target: NodeId, a: Rank)
    requires Ordered(g, a) && source in g && target in g
    ensures LinkedInOrder(g, source, target, a)
            <==> source !in Reach(g, {target}) && FirstIsLongest(g, a, target, a[source])
  {
    hide FirstIsLongest, Reach, Raise;
    var b := Raise(g, target, a[source], a, {}).0;
    RaiseKeepsOrder(g, target, a[source], a);
    if LinkedInOrder(g, source, target, a) {
      NotBelow(g, source, target, a);
      var b' := InOrderLinked(g, source, target, a);
    }
    if source !in Reach(g, {target}) && FirstIsLongest(g, a, target, a[source]) {
      RaiseMonotone(g, target, a[source], a);
      LinkedOrdered(g, source, target, b);
    }
  }

  lemma LinkedOrdered(g: Graph<NodeId>, source: NodeId, target: NodeId, b: Rank)
    requires WellFormed(g) && source in g && target in g && b.Keys == g.Keys && b[source] < b[target]
    requires forall u, x :: u in g && x in g[u] ==> x in g && b[u] < b[x]
    ensures Ordered(Linked(g, source, target), b)
  {}

  // ---- any order of the listeners: even raising keeps the order ----

  /** A raising route as the path of its nodes. */
  lemma {:induction false} PathOfRoute(g: Graph<NodeId>, a: Rank, limit: nat, n: NodeId, r: Route, x: NodeId)
    returns (p: seq<NodeId>)
    requires Raises(g, a, limit, n, r, x)
    ensures RaisingPath(g, a, limit, p) && Leads(p, n, x) && |p| == |r| + 1
    decreases |r|
  {
    if r == [] {
      p := [n];
    } else {
      var u :| Raises(g, a, limit, n, r[..|r| - 1], u) && r[|r| - 1] < |g[u]| && g[u][r[|r| - 1]] == x;
      p := PathOfRoute(g, a, limit, n, r[..|r| - 1], u);
      p := p + [x];
    }
  }

  lemma EvenKeepsOrder(g: Graph<NodeId>, source: NodeId, target: NodeId, a: Rank)
    requires Ordered(g, a) && source in g && target in g
    requires source !in Reach(g, {target}) && EvenlyRaised(g, a, target, a[source])
    ensures LinkedInOrder(g, source, target, a)
  {
    hide LinkedInOrder, Raises, RaisingPath, Reach;
    LinkKeepsOrder(g, source, target, a);
    forall p, q, x | IsFirst(g, a, a[source], target, p, x) && Raises(g, a, a[source], target, q, x)
      ensures |q| <= |p|
    {
      var p' := PathOfRoute(g, a, a[source], target, p, x);
      var q' := PathOfRoute(g, a, a[source], target, q, x);
    }
  }

  // ---- uneven raising loses the order ----

  /** In order after the raise, a raising path lifts its last node by its length. */
  lemma {:induction false} PathLifts(g: Graph<NodeId>, b: Rank, p: seq<NodeId>, i: nat)
    requires p != [] && (forall j :: 0 <= j < |p| ==> p[j] in g) && (forall j :: 0 <= j < |p| - 1 ==> p[j + 1] in g[p[j]])
    requires Ordered(g, b) && i < |p|
    ensures b[p[i]] >= b[p[0]] + i
  {
    if i > 0 {
      PathLifts(g, b, p, i - 1);
      assert p[i - 1 + 1] in g[p[i - 1]];
    }
  }

  /** The path is what the recursion follows first. */
  ghost predicate First(g: Graph<NodeId>, p: seq<NodeId>) {
    && (forall i :: 0 <= i < |p| ==> p[i] in g)
    && (forall i :: 0 <= i < |p| - 1 ==> g[p[i]] != [] && g[p[i]][0] == p[i + 1])
  }

  lemma RaiseSets(g: Graph<NodeId>, n: NodeId, limit: nat, r: Rank, s: set<NodeId>)
    requires WellFormed(g) && n in g && r.Keys == g.Keys && s <= g.Keys
    ensures r[n] <= limit && n !in s ==> Raise(g, n, limit, r, s).0[n] == limit + 1
    ensures forall x :: x in g && Raise(g, n, limit, r, s).0[x] != r[x] ==> x in Raise(g, n, limit, r, s).1
  {
    var via := RaiseTraced(g, g.Keys, n, limit, r, s);
  }

  /** A raise of `n` goes to its first listener first and leaves alone what that raised. */
  lemma RaiseFirst(g: Graph<NodeId>, n: NodeId, limit: nat, r: Rank, s: set<NodeId>, x: NodeId)
    requires WellFormed(g) && n in g && r.Keys == g.Keys && s <= g.Keys && r[n] <= limit && n !in s
    requires g[n] != [] && g[n][0] in g && x in g && x != n
    requires Raise(g, g[n][0], limit + 1, r[n := limit + 1], s + {n}).0[x] != r[x]
    ensures Raise(g, n, limit, r, s).0[x] == Raise(g, g[n][0], limit + 1, r[n := limit + 1], s + {n}).0[x]
  {
    var r1, s1 := r[n := limit + 1], s + {n};
    var (r2, s2) := Raise(g, g[n][0], limit + 1, r1, s1);
    RaiseSets(g, g[n][0], limit + 1, r1, s1);
    RaiseFromKeeps(g, n, 1, limit + 1, r2, s2, x);
  }

  lemma RestRaises(g: Graph<NodeId>, a: Rank, limit: nat, p: seq<NodeId>)
    requires Ordered(g, a) && RaisingPath(g, a, limit, p) && |p| > 1
    ensures RaisingPath(g, a, limit + 1, p[1..]) && p[1] in g[p[0]] && p[1] in g && a[p[0]] < a[p[1]]
    ensures First(g, p) ==> First(g, p[1..]) && g[p[0]] != [] && g[p[0]][0] == p[1]
  {
    var rest := p[1..];
    assert forall i :: 0 <= i < |rest| ==> rest[i] == p[i + 1];
    assert p[0 + 1] in g[p[0]];
  }

  /** A raise that follows a raising path first gives its last node the limit plus the path's length. */
  lemma {:induction false} RaiseAlong(g: Graph<NodeId>, a: Rank, limit: nat, p: seq<NodeId>, r: Rank, s: set<NodeId>)
    requires Ordered(g, a) && RaisingPath(g, a, limit, p) && First(g, p) && r.Keys == g.Keys && s <= g.Keys
    requires p != [] && WellFormed(g) && p[0] in g && p[|p| - 1] in g && a[p[0]] <= limit && a.Keys == g.Keys
    requires forall x :: x in g && a[x] >= a[p[0]] ==> x !in s && r[x] == a[x]
    ensures Raise(g, p[0], limit, r, s).0[p[|p| - 1]] == limit + |p|
    decreases |p|
  {
    hide Raise, RaiseFrom, RaisingPath, First, Ordered, WellFormed;
    var n, last := p[0], p[|p| - 1];
    if |p| == 1 {
      RaiseSets(g, n, limit, r, s);
    } else {
      var r1, s1, rest := r[n := limit + 1], s + {n}, p[1..];
      RestRaises(g, a, limit, p);
      assert rest[|rest| - 1] == last && rest[0] == p[1];
      LastRises(g, a, limit, p);
      RaiseAlong(g, a, limit + 1, rest, r1, s1);
      RaiseFirst(g, n, limit, r, s, last);
    }
  }

  lemma LastRises(g: Graph<NodeId>, a: Rank, limit: nat, p: seq<NodeId>)
    requires Ordered(g, a) && |p| > 1 && RaisingPath(g, a, limit, p)
    ensures var last := p[|p| - 1]; a[last] > a[p[0]] && a[last] < limit + |p| && a[p[1]] <= limit + 1
  {
    PathRises(g, a, p, |p| - 1);
  }

  lemma PathRises(g: Graph<NodeId>, a: Rank, p: seq<NodeId>, i: nat)
    requires p != [] && (forall j :: 0 <= j < |p| ==> p[j] in g) && (forall j :: 0 <= j < |p| - 1 ==> p[j + 1] in g[p[j]])
    requires Ordered(g, a) && 0 < i < |p|
    ensures a[p[i]] > a[p[0]]
  {
    PathLifts(g, a, p, i);
  }

  lemma {:induction false} RaiseFromKeeps(g: Graph<NodeId>, n: NodeId, i: nat, limit: nat, r: Rank, s: set<NodeId>, x: NodeId)
    requires WellFormed(g) && n in g && i <= |g[n]| && r.Keys == g.Keys && s <= g.Keys && x in s
    ensures RaiseFrom(g, n, i, limit, r, s).0[x] == r[x]
    decreases |g[n]| - i
  {
    if i < |g[n]| {
      assert g[n][i] in g[n];
      RaisedKeeps(g, g[n][i], limit, r, s);
      var (r', s') := Raise(g, g[n][i], limit, r, s);
      RaiseFromKeeps(g, n, i + 1, limit, r', s', x);
    }
  }

  ghost function ToFront(ns: seq<NodeId>, x: NodeId): (r: seq<NodeId>)
    requires x in ns
    ensures multiset(r) == multiset(ns) && r[0] == x
  {
    var k :| 0 <= k < |ns| && ns[k] == x;
    assert ns == ns[..k] + [x] + ns[k + 1..];
    [x] + ns[..k] + ns[k + 1..]
  }

  lemma FirstExtended(g: Graph<NodeId>, a: Rank, limit: nat, p: seq<NodeId>, h': Graph<NodeId>, h: Graph<NodeId>)
    requires Ordered(g, a) && |p| > 1 && RaisingPath(g, a, limit, p) && First(h', p[1..]) && h'.Keys == g.Keys
    requires exists ns: seq<NodeId> :: ns != [] && ns[0] == p[1] && h == h'[p[0] := ns]
    ensures First(h, p)
  {
    var rest := p[1..];
    forall i | 0 <= i < |p| - 1
      ensures h[p[i]] != [] && h[p[i]][0] == p[i + 1]
    {
      if i > 0 {
        PathRises(g, a, p, i);
        assert rest[i - 1] == p[i] && rest[i] == p[i + 1];
      }
    }
  }

  /** The listeners can be put in an order in which the raise follows a given path first. */
  lemma {:induction false} PutFirst(g: Graph<NodeId>, a: Rank, limit: nat, p: seq<NodeId>) returns (h: Graph<NodeId>)
    requires Ordered(g, a) && RaisingPath(g, a, limit, p)
    ensures Reordered(g, h) && First(h, p) && forall x :: x in g && a[x] < a[p[0]] ==> h[x] == g[x]
    decreases |p|
  {
    if |p| == 1 {
      h := g;
    } else {
      hide RaisingPath, First, Ordered;
      var n, rest := p[0], p[1..];
      RestRaises(g, a, limit, p);
      var h' := PutFirst(g, a, limit + 1, rest);
      assert h'[n] == g[n];
      h := h'[n := ToFront(g[n], p[1])];
      FirstExtended(g, a, limit, p, h', h);
    }
  }

  lemma ReorderedOrdered(g: Graph<NodeId>, h: Graph<NodeId>, a: Rank)
    requires Ordered(g, a) && Reordered(g, h)
    ensures Ordered(h, a)
    ensures forall u, v :: u in g ==> (v in h[u] <==> v in g[u])
  {
    forall u, v | u in g
      ensures v in h[u] <==> v in g[u]
    {
      assert multiset(h[u])[v] == multiset(g[u])[v];
    }
  }

  lemma ReorderedReach(g: Graph<NodeId>, h: Graph<NodeId>, n: NodeId)
    requires WellFormed(g) && WellFormed(h) && h.Keys == g.Keys
    requires forall u, v :: u in g ==> (v in h[u] <==> v in g[u])
    ensures Reach(h, {n}) == Reach(g, {n})
  {
    ReachLeast(h, {n}, Reach(g, {n}));
    ReachLeast(g, {n}, Reach(h, {n}));
  }

  lemma InOrderLinked(g: Graph<NodeId>, source: NodeId, target: NodeId, a: Rank) returns (b: Rank)
    requires Ordered(g, a) && source in g && target in g && LinkedInOrder(g, source, target, a)
    ensures b == Raise(g, target, a[source], a, {}).0 && Ordered(g, b) && b[source] < b[target]
  {
    hide Raise;
    b := Raise(g, target, a[source], a, {}).0;
    var l := Linked(g, source, target);
    assert target in l[source];
    assert forall u, v :: u in g && v in g[u] ==> v in l[u];
  }

  /** Nodes below `n` rank no lower than it. */
  lemma BelowIsHigher(g: Graph<NodeId>, b: Rank, n: NodeId, x: NodeId)
    requires Ordered(g, b) && n in g && x in Reach(g, {n})
    ensures x in b && b[x] >= b[n]
  {
    ReachLeast(g, {n}, set x | x in g && b[x] >= b[n]);
  }

  /** A source below the target cannot be ordered before it. */
  lemma NotBelow(g: Graph<NodeId>, source: NodeId, target: NodeId, a: Rank)
    requires Ordered(g, a) && source in g && target in g && LinkedInOrder(g, source, target, a)
    ensures source !in Reach(g, {target})
  {
    hide Raise, Reach;
    var b := InOrderLinked(g, source, target, a);
    if source in Reach(g, {target}) {
      BelowIsHigher(g, b, target, source);
    }
  }

  lemma PathReordered(g: Graph<NodeId>, h: Graph<NodeId>, a: Rank, limit: nat, p: seq<NodeId>)
    requires Ordered(g, a) && Reordered(g, h)
    ensures RaisingPath(g, a, limit, p) <==> RaisingPath(h, a, limit, p)
  {
    ReorderedOrdered(g, h, a);
  }

  /** A raise that keeps the order lifts the end of a path of its own by at least the path's length. */
  lemma LiftedByPath(h: Graph<NodeId>, source: NodeId, target: NodeId, a: Rank, q: seq<NodeId>, x: NodeId)
    requires Ordered(h, a) && source in h && target in h && LinkedInOrder(h, source, target, a)
    requires RaisingPath(h, a, a[source], q) && Leads(q, target, x)
    ensures x in h && Raise(h, target, a[source], a, {}).0[x] >= a[source] + |q|
  {
    hide Raise, LinkedInOrder;
    var b := InOrderLinked(h, source, target, a);
    PathLifts(h, b, q, |q| - 1);
    RaiseSets(h, target, a[source], a, {});
  }

  /** In order under every order of the listeners, no raising path to a node is longer than another. */
  lemma NotLonger(g: Graph<NodeId>, source: NodeId, target: NodeId, a: Rank, p: seq<NodeId>, q: seq<NodeId>, x: NodeId)
    requires Ordered(g, a) && source in g && target in g
    requires forall h :: Reordered(g, h) && Ordered(h, a) ==> LinkedInOrder(h, source, target, a)
    requires RaisingPath(g, a, a[source], p) && Leads(p, target, x) && RaisingPath(g, a, a[source], q) && Leads(q, target, x)
    ensures |p| >= |q|
  {
    hide Raise, LinkedInOrder, First;
    var h := PutFirst(g, a, a[source], p);
    ReorderedOrdered(g, h, a);
    PathReordered(g, h, a, a[source], p);
    PathReordered(g, h, a, a[source], q);
    LiftedByPath(h, source, target, a, q, x);
    RaiseAlong(h, a, a[source], p, a, {});
  }

  /** Linking keeps every edge in order, whatever the order of the listeners, exactly when the source is not
      below the target and the raise reaches no node by paths of different lengths. */
  lemma LinkKeepsOrderIff(g: Graph<NodeId>, source: NodeId, target: NodeId, a: Rank)
    requires Ordered(g, a) && source in g && target in g
    ensures (forall h :: Reordered(g, h) && Ordered(h, a) ==> LinkedInOrder(h, source, target, a))
            <==> source !in Reach(g, {target}) && EvenlyRaised(g, a, target, a[source])
  {
    hide LinkedInOrder, Reach, RaisingPath, Raise;
    if forall h :: Reordered(g, h) && Ordered(h, a) ==> LinkedInOrder(h, source, target, a) {
      assert Reordered(g, g);
      NotBelow(g, source, target, a);
      forall p, q, x | RaisingPath(g, a, a[source], p) && RaisingPath(g, a, a[source], q) && Leads(p, target, x) && Leads(q, target, x)
        ensures |p| == |q|
      {
        NotLonger(g, source, target, a, p, q, x);
        NotLonger(g, source, target, a, q, p, x);
      }
    }
    if source !in Reach(g, {target}) && EvenlyRaised(g, a, target, a[source]) {
      forall h | Reordered(g, h) && Ordered(h, a)
        ensures LinkedInOrder(h, source, target, a)
      {
        EvenAnyOrder(g, h, source, target, a);
      }
    }
  }

  lemma EvenAnyOrder(g: Graph<NodeId>, h: Graph<NodeId>, source: NodeId, target: NodeId, a: Rank)
    requires Ordered(g, a) && source in g && target in g && Reordered(g, h) && Ordered(h, a)
    requires source !in Reach(g, {target}) && EvenlyRaised(g, a, target, a[source])
    ensures LinkedInOrder(h, source, target, a)
  {
    ReorderedOrdered(g, h, a);
    ReorderedReach(g, h, target);
    forall p
      ensures RaisingPath(h, a, a[source], p) ==> RaisingPath(g, a, a[source], p)
    {
      PathReordered(g, h, a, a[source], p);
    }
    EvenKeepsOrder(h, source, target, a);
  }
}
