/** Rank raising over the listener graph, and linking and unlinking of listeners. */
module Ranks {
  import opened Graphs
  import opened Sequences

  type NodeId = nat

  /** One listener of a node: its target node, and the number that names the registration. */
  datatype Target = Target(node: NodeId, ref: nat)

  /** The edge that leaves `from` for its listener number `index`. */
  datatype Edge = Edge(from: NodeId, index: nat)

  type Rank = map<NodeId, nat>
  type Entrances = map<NodeId, Edge>

  /** Every edge leads to a higher rank. */
  ghost predicate Ordered(g: Graph<NodeId>, rank: Rank) {
    && rank.Keys == g.Keys && WellFormed(g)
    && forall u, v :: u in g && v in g[u] ==> rank[u] < rank[v]
  }

  /** One raise, from ranks `a` and visited set `s` to `b` and `t`: the nodes newly visited are the nodes
      whose rank changed, every change is an increase, and a node entered through an edge `via` got the
      rank after that edge's source. `open` are edges not yet examined. */
  ghost predicate Raised(g: Graph<NodeId>, C: set<NodeId>, n: NodeId, a: Rank, s: set<NodeId>, b: Rank, t: set<NodeId>,
                         via: Entrances) {
    && a.Keys == g.Keys == b.Keys && s <= t <= g.Keys && t - s <= C
    && (forall x :: x in g ==> b[x] >= a[x] && (b[x] != a[x] <==> x in t && x !in s))
    && via.Keys == t - s - {n}
    && (forall x :: x in via ==> Enters(g, via[x], x) && via[x].from in t && via[x].from !in s
                                 && b[x] == b[via[x].from] + 1)
  }

  ghost predicate Enters(g: Graph<NodeId>, e: Edge, x: NodeId) {
    e.from in g && e.index < |g[e.from]| && g[e.from][e.index] == x
  }

  /** Edge `e` leads upwards, or its target had been raised through another way in. */
  ghost predicate UpOrLate(g: Graph<NodeId>, e: Edge, b: Rank, t: set<NodeId>, via: Entrances)
    requires e.from in g && e.index < |g[e.from]| && b.Keys == g.Keys
  {
    var x := g[e.from][e.index];
    x in g && (b[e.from] < b[x] || (x in t && (x in via ==> via[x] != e)))
  }

  /** Every edge out of a newly raised node, other than those of `open`, has been examined. */
  ghost predicate Examined(g: Graph<NodeId>, s: set<NodeId>, b: Rank, t: set<NodeId>, via: Entrances, open: set<NodeId>)
    requires b.Keys == g.Keys
  {
    forall u, k :: u in g && u in t && u !in s && u !in open && 0 <= k < |g[u]| ==> UpOrLate(g, Edge(u, k), b, t, via)
  }

  ghost predicate RaiseReady(g: Graph<NodeId>, C: set<NodeId>, n: NodeId, a: Rank, s: set<NodeId>) {
    WellFormed(g) && Closed(g, C) && n in g && n in C && a.Keys == g.Keys && s <= g.Keys
  }

  ghost predicate RaiseDone(g: Graph<NodeId>, C: set<NodeId>, n: NodeId, limit: nat, a: Rank, s: set<NodeId>, b: Rank,
                            t: set<NodeId>, via: Entrances, changed: bool) {
    && RaiseReady(g, C, n, a, s) && Raised(g, C, n, a, s, b, t, via) && Examined(g, s, b, t, via, {})
    && (changed <==> a[n] <= limit && n !in s)
    && (if changed then n in t && b[n] == limit + 1 else b == a && t == s)
  }

  /** In the loop over the listeners of `n`, the first `i` of them examined. */
  ghost predicate Raising(g: Graph<NodeId>, C: set<NodeId>, n: NodeId, limit: nat, i: nat, a: Rank, s: set<NodeId>,
                          b: Rank, t: set<NodeId>, via: Entrances) {
    && RaiseReady(g, C, n, a, s) && Raised(g, C, n, a, s, b, t, via) && Examined(g, s, b, t, via, {n})
    && a[n] <= limit && n !in s && n in t && b[n] == limit + 1 && i <= |g[n]|
    && (forall k :: 0 <= k < i ==> UpOrLate(g, Edge(n, k), b, t, via))
    && (forall x :: x in via && via[x].from == n ==> via[x].index < i)
  }

  lemma RaiseSkip(g: Graph<NodeId>, C: set<NodeId>, n: NodeId, limit: nat, a: Rank, s: set<NodeId>)
    requires RaiseReady(g, C, n, a, s) && (a[n] > limit || n in s)
    ensures RaiseDone(g, C, n, limit, a, s, a, s, map[], false)
  {}

  lemma RaiseEnter(g: Graph<NodeId>, C: set<NodeId>, n: NodeId, limit: nat, a: Rank, s: set<NodeId>)
    requires RaiseReady(g, C, n, a, s) && a[n] <= limit && n !in s
    ensures Raising(g, C, n, limit, 0, a, s, a[n := limit + 1], s + {n}, map[])
  {}

  lemma RaiseDescend(g: Graph<NodeId>, C: set<NodeId>, n: NodeId, limit: nat, i: nat, a: Rank, s: set<NodeId>,
                     b: Rank, t: set<NodeId>, via: Entrances)
    requires Raising(g, C, n, limit, i, a, s, b, t, via) && i < |g[n]|
    ensures RaiseReady(g, C, g[n][i], b, t) && g.Keys - t < g.Keys - s && g[n][i] in b
  {
    assert n in g.Keys - s && n !in g.Keys - t;
    assert g[n][i] in g[n];
  }

  function Joined(via: Entrances, below: Entrances, n: NodeId, i: nat, c: NodeId, changed: bool): Entrances {
    if changed then via + below + map[c := Edge(n, i)] else via
  }

  lemma RaiseReturn(g: Graph<NodeId>, C: set<NodeId>, n: NodeId, limit: nat, i: nat, a: Rank, s: set<NodeId>,
                    b: Rank, t: set<NodeId>, via: Entrances, c: Rank, u: set<NodeId>, below: Entrances, changed: bool)
    requires Raising(g, C, n, limit, i, a, s, b, t, via) && i < |g[n]|
    requires RaiseDone(g, C, g[n][i], limit + 1, b, t, c, u, below, changed)
    ensures Raising(g, C, n, limit, i + 1, a, s, c, u, Joined(via, below, n, i, g[n][i], changed))
  {
    var via' := Joined(via, below, n, i, g[n][i], changed);
    if changed {
      assert via'.Keys == u - s - {n};
      RaisedJoined(g, C, n, limit, i, a, s, b, t, via, c, u, below);
      ExaminedJoined(g, C, n, limit, i, a, s, b, t, via, c, u, below);
    }
  }

  lemma RaisedJoined(g: Graph<NodeId>, C: set<NodeId>, n: NodeId, limit: nat, i: nat, a: Rank, s: set<NodeId>,
                     b: Rank, t: set<NodeId>, via: Entrances, c: Rank, u: set<NodeId>, below: Entrances)
    requires Raising(g, C, n, limit, i, a, s, b, t, via) && i < |g[n]|
    requires RaiseDone(g, C, g[n][i], limit + 1, b, t, c, u, below, true)
    ensures var via' := Joined(via, below, n, i, g[n][i], true);
            Raised(g, C, n, a, s, c, u, via') && forall x :: x in via' && via'[x].from == n ==> via'[x].index < i + 1
  {
    hide Examined;
    var via' := Joined(via, below, n, i, g[n][i], true);
    assert via'.Keys == u - s - {n};
    forall x | x in via'
      ensures Enters(g, via'[x], x) && via'[x].from in u && via'[x].from !in s && c[x] == c[via'[x].from] + 1
      ensures via'[x].from == n ==> via'[x].index < i + 1
    {
      if x == g[n][i] {
      } else if x in below {
        assert via'[x] == below[x];
      } else {
        assert via'[x] == via[x];
      }
    }
  }

  lemma ExaminedJoined(g: Graph<NodeId>, C: set<NodeId>, n: NodeId, limit: nat, i: nat, a: Rank, s: set<NodeId>,
                       b: Rank, t: set<NodeId>, via: Entrances, c: Rank, u: set<NodeId>, below: Entrances)
    requires Raising(g, C, n, limit, i, a, s, b, t, via) && i < |g[n]|
    requires RaiseDone(g, C, g[n][i], limit + 1, b, t, c, u, below, true)
    ensures var via' := Joined(via, below, n, i, g[n][i], true);
            Examined(g, s, c, u, via', {n}) && forall k :: 0 <= k < i + 1 ==> UpOrLate(g, Edge(n, k), c, u, via')
  {
    var via' := Joined(via, below, n, i, g[n][i], true);
    forall v, k | v in g && v in u && v !in s && 0 <= k < |g[v]| && (v == n ==> k < i + 1)
      ensures UpOrLate(g, Edge(v, k), c, u, via')
    {
      var x := g[v][k];
      if v in t && !(v == n && k == i) {
        assert UpOrLate(g, Edge(v, k), b, t, via);
      } else if v !in t {
        assert UpOrLate(g, Edge(v, k), c, u, below);
      }
    }
  }

  lemma RaiseExit(g: Graph<NodeId>, C: set<NodeId>, n: NodeId, limit: nat, a: Rank, s: set<NodeId>,
                  b: Rank, t: set<NodeId>, via: Entrances)
    requires n in g && Raising(g, C, n, limit, |g[n]|, a, s, b, t, via)
    ensures RaiseDone(g, C, n, limit, a, s, b, t, via, true)
  {
    hide UpOrLate;
  }

  // ---- the recursion ----

  /** `ensure_bigger_than`: ranks and visited set after asking for a rank above `limit`. */
  function Raise(g: Graph<NodeId>, n: NodeId, limit: nat, rank: Rank, visited: set<NodeId>): (r: (Rank, set<NodeId>))
    requires WellFormed(g) && n in g && rank.Keys == g.Keys && visited <= g.Keys
    ensures r.0.Keys == g.Keys && visited <= r.1 <= g.Keys
    decreases g.Keys - visited, 0, 0
  {
    if rank[n] > limit || n in visited then (rank, visited)
    else
      assert g.Keys - (visited + {n}) < g.Keys - visited by { assert n in g.Keys - visited; }
      RaiseFrom(g, n, 0, limit + 1, rank[n := limit + 1], visited + {n})
  }

  /** The loop over the listeners of `n`, from number `i` on. */
  function RaiseFrom(g: Graph<NodeId>, n: NodeId, i: nat, limit: nat, rank: Rank, visited: set<NodeId>): (r: (Rank, set<NodeId>))
    requires WellFormed(g) && n in g && i <= |g[n]| && rank.Keys == g.Keys && visited <= g.Keys
    ensures r.0.Keys == g.Keys && visited <= r.1 <= g.Keys
    decreases g.Keys - visited, 1, |g[n]| - i
  {
    if i == |g[n]| then (rank, visited)
    else
      assert g[n][i] in g[n];
      var (rank', visited') := Raise(g, g[n][i], limit, rank, visited);
      assert g.Keys - visited' <= g.Keys - visited;
      RaiseFrom(g, n, i + 1, limit, rank', visited')
  }

  /** Every run of the recursion can be annotated with the edges through which nodes were entered. */
  lemma {:induction false} RaiseTraced(g: Graph<NodeId>, C: set<NodeId>, n: NodeId, limit: nat, a: Rank, s: set<NodeId>)
    returns (via: Entrances)
    requires RaiseReady(g, C, n, a, s)
    ensures var (b, t) := Raise(g, n, limit, a, s); RaiseDone(g, C, n, limit, a, s, b, t, via, a[n] <= limit && n !in s)
    decreases g.Keys - s, 0, 0
  {
    if a[n] > limit || n in s {
      RaiseSkip(g, C, n, limit, a, s);
      via := map[];
    } else {
      assert g.Keys - (s + {n}) < g.Keys - s by { assert n in g.Keys - s; }
      RaiseEnter(g, C, n, limit, a, s);
      via := RaiseFromTraced(g, C, n, limit, 0, a, s, a[n := limit + 1], s + {n}, map[]);
    }
  }

  lemma {:induction false} RaiseFromTraced(g: Graph<NodeId>, C: set<NodeId>, n: NodeId, limit: nat, i: nat, a: Rank,
                                           s: set<NodeId>, b: Rank, t: set<NodeId>, via: Entrances)
    returns (via': Entrances)
    requires n in g && i <= |g[n]| && Raising(g, C, n, limit, i, a, s, b, t, via)
    ensures var (c, u) := RaiseFrom(g, n, i, limit + 1, b, t); RaiseDone(g, C, n, limit, a, s, c, u, via', true)
    decreases g.Keys - t, 1, |g[n]| - i
  {
    hide Raised, Examined;
    if i == |g[n]| {
      RaiseExit(g, C, n, limit, a, s, b, t, via);
      via' := via;
    } else {
      RaiseDescend(g, C, n, limit, i, a, s, b, t, via);
      var below := RaiseTraced(g, C, g[n][i], limit + 1, b, t);
      var (c, u) := Raise(g, g[n][i], limit + 1, b, t);
      var changed := b[g[n][i]] <= limit + 1 && g[n][i] !in t;
      RaiseReturn(g, C, n, limit, i, a, s, b, t, via, c, u, below, changed);
      assert g.Keys - u <= g.Keys - t;
      via' := RaiseFromTraced(g, C, n, limit, i + 1, a, s, c, u, Joined(via, below, n, i, g[n][i], changed));
    }
  }

  // ---- what a link keeps ----

  ghost function Linked(g: Graph<NodeId>, source: NodeId, target: NodeId): Graph<NodeId>
    requires source in g
  {
    g[source := g[source] + [target]]
  }

  /** No rank is lowered, each node changes at most once and exactly when it is visited, all changes lie
      below the target, and nothing changes exactly when the target was already high enough. */
  lemma RaiseMonotone(g: Graph<NodeId>, n: NodeId, limit: nat, a: Rank)
    requires WellFormed(g) && n in g && a.Keys == g.Keys
    ensures var (b, t) := Raise(g, n, limit, a, {});
            && (forall x :: x in g ==> b[x] >= a[x] && (b[x] != a[x] <==> x in t))
            && t <= Reach(g, {n}) && b[n] > limit && (b == a <==> a[n] > limit)
  {
    var via := RaiseTraced(g, Reach(g, {n}), n, limit, a, {});
  }

  /** The target gets the rank after the limit; a node is raised if it listens to a raised node of no lower
      rank, and only then, to the rank after such a node's. */
  lemma RaiseExactly(g: Graph<NodeId>, n: NodeId, limit: nat, a: Rank)
    requires WellFormed(g) && n in g && a.Keys == g.Keys
    ensures var (b, t) := Raise(g, n, limit, a, {});
            && (if a[n] <= limit then n in t && b[n] == limit + 1 else b == a && t == {})
            && (forall u, x :: u in t && u in g && x in g[u] && x in g && a[x] <= b[u] ==> x in t)
            && (forall x :: x in t && x != n ==> exists u :: u in t && u in g && x in g[u] && b[x] == b[u] + 1)
  {
    var via := RaiseTraced(g, Reach(g, {n}), n, limit, a, {});
    var (b, t) := Raise(g, n, limit, a, {});
    forall u, x | u in t && u in g && x in g[u] && x in g && a[x] <= b[u]
      ensures x in t
    {
      var k :| 0 <= k < |g[u]| && g[u][k] == x;
      assert UpOrLate(g, Edge(u, k), b, t, via);
    }
    forall x | x in t && x != n
      ensures exists u :: u in t && u in g && x in g[u] && b[x] == b[u] + 1
    {
      assert x in via && Enters(g, via[x], x);
    }
  }

  /** After raising from an ordered graph, an edge out of order leads from one raised node to another
      that is the target of the link or was entered through a different edge. */
  lemma OutOfOrderIsLate(g: Graph<NodeId>, n: NodeId, limit: nat, a: Rank, u: NodeId, k: nat) returns (via: Entrances)
    requires Ordered(g, a) && n in g && u in g && k < |g[u]|
    requires var b := Raise(g, n, limit, a, {}).0; b[u] >= b[g[u][k]]
    ensures var (b, t) := Raise(g, n, limit, a, {}); var x := g[u][k];
            && u in t && x in t && {u, x} <= Reach(g, {n})
            && (x == n || (x in via && via[x] != Edge(u, k) && Enters(g, via[x], x) && via[x].from in t
                           && b[x] == b[via[x].from] + 1))
  {
    via := RaiseTraced(g, Reach(g, {n}), n, limit, a, {});
    var (b, t) := Raise(g, n, limit, a, {});
    assert g[u][k] in g[u];
    if u in t {
      assert UpOrLate(g, Edge(u, k), b, t, via);
    }
  }

  /** With a reconverging graph the order can be lost: 1 listens 3 first and 2 next, and 2 listens 3. */
  lemma ReconvergingLosesOrder()
    ensures var g, a := map[0 := [], 1 := [3, 2], 2 := [3], 3 := []], map[0 := 5, 1 := 0, 2 := 1, 3 := 2];
            Ordered(g, a) && 0 !in Reach(g, {1}) && !Ordered(Linked(g, 0, 1), Raise(g, 1, 5, a, {}).0)
  {
    var g: Graph<NodeId> := map[0 := [], 1 := [3, 2], 2 := [3], 3 := []];
    var a: Rank := map[0 := 5, 1 := 0, 2 := 1, 3 := 2];
    assert Ordered(g, a);
    ReconvergingBelow(g);
    var b := ReconvergingRaise(g, a);
    LevelEdge(Linked(g, 0, 1), b, 2, 3);
    hide Raise, RaiseFrom, Reach;
  }

  lemma LevelEdge(g: Graph<NodeId>, b: Rank, u: NodeId, v: NodeId)
    requires u in g && v in g[u] && u in b && v in b && b[u] >= b[v]
    ensures !Ordered(g, b)
  {}

  lemma ReconvergingBelow(g: Graph<NodeId>)
    requires g == map[0 := [], 1 := [3, 2], 2 := [3], 3 := []] && WellFormed(g)
    ensures 0 !in Reach(g, {1})
  {
    ReachLeast(g, {1}, {1, 2, 3});
  }

  lemma ReconvergingRaise(g: Graph<NodeId>, a: Rank) returns (b: Rank)
    requires g == map[0 := [], 1 := [3, 2], 2 := [3], 3 := []] && WellFormed(g) && a == map[0 := 5, 1 := 0, 2 := 1, 3 := 2]
    ensures b == Raise(g, 1, 5, a, {}).0 && 2 in b && 3 in b && b[2] == b[3] == 7
  {
    var r1, v1 := a[1 := 6], {} + {1};
    var r2, v2 := r1[3 := 7], v1 + {3};
    var r3, v3 := r2[2 := 7], v2 + {2};
    assert Raise(g, 3, 6, r1, v1) == (r2, v2);
    assert RaiseFrom(g, 2, 0, 7, r3, v3) == RaiseFrom(g, 2, 1, 7, r3, v3) == (r3, v3);
    assert Raise(g, 2, 6, r2, v2) == (r3, v3);
    assert RaiseFrom(g, 1, 1, 6, r2, v2) == RaiseFrom(g, 1, 2, 6, r3, v3) == (r3, v3);
    b := r3;
  }

  // ---- the node table ----

  /** The target nodes of a listener list. */
  function Nodes(ls: seq<Target>): (ns: seq<NodeId>)
    ensures |ns| == |ls| && forall k :: 0 <= k < |ls| ==> ns[k] == ls[k].node
  {
    if ls == [] then [] else [ls[0].node] + Nodes(ls[1..])
  }

  lemma {:induction false} NodesAppend(ls: seq<Target>, t: Target)
    ensures Nodes(ls + [t]) == Nodes(ls) + [t.node]
  {
    forall k | 0 <= k < |ls| + 1
      ensures Nodes(ls + [t])[k] == (Nodes(ls) + [t.node])[k]
    {}
  }

  /** The listeners that a removal by number leaves, in their order. */
  function Keep(ls: seq<Target>, ref: nat): (kept: seq<Target>)
    ensures forall t :: t in kept ==> t in ls && t.ref != ref
  {
    if ls == [] then []
    else if ls[0].ref == ref then Keep(ls[1..], ref)
    else [ls[0]] + Keep(ls[1..], ref)
  }

  /** `ks` are the positions of the registrations with other numbers. */
  ghost predicate OtherRefs(ls: seq<Target>, ref: nat, ks: seq<nat>) {
    forall i :: 0 <= i < |ls| ==> (i in ks <==> ls[i].ref != ref)
  }

  /** They are all the others. */
  lemma {:induction false} KeepPicks(ls: seq<Target>, ref: nat) returns (ks: seq<nat>)
    ensures Picks(ls, ks, Keep(ls, ref)) && OtherRefs(ls, ref, ks)
  {
    if ls == [] {
      ks := [];
    } else {
      hide Picks, OtherRefs;
      var rest := KeepPicks(ls[1..], ref);
      ks := if ls[0].ref != ref then [0] + Later(rest) else Later(rest);
      PicksFirst(ls, rest, Keep(ls[1..], ref));
      OtherRefsFirst(ls, ref, rest);
    }
  }

  lemma OtherRefsFirst(ls: seq<Target>, ref: nat, rest: seq<nat>)
    requires ls != [] && OtherRefs(ls[1..], ref, rest)
    ensures OtherRefs(ls, ref, if ls[0].ref != ref then [0] + Later(rest) else Later(rest))
  {
    forall i: nat | i < |ls|
      ensures i in (if ls[0].ref != ref then [0] + Later(rest) else Later(rest)) <==> ls[i].ref != ref
    {
      LaterMember(rest, i);
      if i > 0 {
        assert ls[i] == ls[1..][i - 1];
      }
    }
  }

  lemma {:induction false} KeepAll(ls: seq<Target>, ref: nat)
    requires forall t :: t in ls ==> t.ref != ref
    ensures Keep(ls, ref) == ls
  {
    if ls != [] {
      assert ls[0] in ls;
      KeepAll(ls[1..], ref);
    }
  }

  lemma {:induction false} KeepAppend(ls: seq<Target>, t: Target, ref: nat)
    ensures Keep(ls + [t], ref) == Keep(ls, ref) + (if t.ref == ref then [] else [t])
    decreases ls
  {
    if ls != [] {
      KeepAppend(ls[1..], t, ref);
      assert (ls + [t])[1..] == ls[1..] + [t];
    } else {
      assert ls + [t] == [t] && [t][1..] == [];
    }
  }

  function GraphOf(listeners: map<NodeId, seq<Target>>): (g: Graph<NodeId>)
    ensures g.Keys == listeners.Keys
  {
    map n | n in listeners :: Nodes(listeners[n])
  }

  /** Listeners point to nodes of the table and carry numbers already given out. */
  ghost predicate ValidTargets(listeners: map<NodeId, seq<Target>>, nextRef: nat) {
    forall n, t :: n in listeners && t in listeners[n] ==> t.node in listeners && t.ref <= nextRef
  }

  lemma GraphWellFormed(listeners: map<NodeId, seq<Target>>, nextRef: nat)
    requires ValidTargets(listeners, nextRef)
    ensures WellFormed(GraphOf(listeners))
  {
    forall n, c | n in listeners && c in Nodes(listeners[n])
      ensures c in listeners
    {
      var k :| 0 <= k < |listeners[n]| && Nodes(listeners[n])[k] == c;
      assert listeners[n][k] in listeners[n];
    }
  }

  lemma ListenersCounted(listeners: map<NodeId, seq<Target>>, n: NodeId)
    requires n in listeners
    ensures |GraphOf(listeners)[n]| == |listeners[n]|
  {}

  lemma ListenerAt(listeners: map<NodeId, seq<Target>>, n: NodeId, i: nat)
    requires n in listeners && i < |listeners[n]| && WellFormed(GraphOf(listeners))
    ensures var g := GraphOf(listeners);
            i < |g[n]| && g[n][i] == listeners[n][i].node && g[n][i] in g
  {
    assert GraphOf(listeners)[n][i] in GraphOf(listeners)[n];
  }

  lemma GraphLinked(listeners: map<NodeId, seq<Target>>, nextRef: nat, n: NodeId, target: NodeId)
    requires ValidTargets(listeners, nextRef) && n in listeners && target in listeners
    ensures var after := listeners[n := listeners[n] + [Target(target, nextRef + 1)]];
            && ValidTargets(after, nextRef + 1) && WellFormed(GraphOf(after))
            && GraphOf(after) == Linked(GraphOf(listeners), n, target)
  {
    NodesAppend(listeners[n], Target(target, nextRef + 1));
    var after := listeners[n := listeners[n] + [Target(target, nextRef + 1)]];
    assert GraphOf(after) == Linked(GraphOf(listeners), n, target);
    assert ValidTargets(after, nextRef + 1);
    GraphWellFormed(after, nextRef + 1);
  }

  /** The nodes of a network: `node_t`'s fields, indexed by node, and the registration counter. */
  class NodeTable {
    var rank: Rank
    var listeners: map<NodeId, seq<Target>>
    var nextRef: nat

    ghost predicate Valid()
      reads this
    {
      rank.Keys == listeners.Keys && ValidTargets(listeners, nextRef) && WellFormed(GraphOf(listeners))
    }

    method EnsureBiggerThan(n: NodeId, limit: nat, visited: set<NodeId>) returns (changed: bool, visited': set<NodeId>)
      requires Valid() && n in rank && visited <= rank.Keys
      modifies this`rank
      ensures Valid()
      ensures (rank, visited') == Raise(GraphOf(listeners), n, limit, old(rank), visited)
      ensures changed <==> old(rank)[n] <= limit && n !in visited
      decreases rank.Keys - visited
    {
      hide GraphOf, ValidTargets, WellFormed, Nodes;
      if rank[n] > limit || n in visited {
        return false, visited;
      }
      ghost var g := GraphOf(listeners);
      assert n in rank.Keys - visited;
      visited' := visited + {n};
      rank := rank[n := limit + 1];
      ghost var all := RaiseFrom(g, n, 0, limit + 1, rank, visited');
      ListenersCounted(listeners, n);
      for i := 0 to |listeners[n]|
        invariant rank.Keys == g.Keys && visited + {n} <= visited' <= rank.Keys
        invariant rank[n] == limit + 1 && RaiseFrom(g, n, i, limit + 1, rank, visited') == all
      {
        var c := listeners[n][i].node;
        ListenerAt(listeners, n, i);
        RaisedKeeps(g, c, limit + 1, rank, visited');
        var below, v := EnsureBiggerThan(c, rank[n], visited');
        visited' := v;
      }
      changed := true;
    }

    /** `link_to`: raise the target above the node, then append the listener under a new number. */
    method LinkTo(n: NodeId, target: NodeId) returns (changed: bool, ref: nat)
      requires Valid() && n in rank && target in rank
      modifies this
      ensures Valid()
      ensures rank == Raise(GraphOf(old(listeners)), target, old(rank)[n], old(rank), {}).0
      ensures changed <==> rank != old(rank)
      ensures ref == nextRef == old(nextRef) + 1
      ensures listeners == old(listeners)[n := old(listeners)[n] + [Target(target, ref)]]
      ensures GraphOf(listeners) == Linked(GraphOf(old(listeners)), n, target)
    {
      hide Raise, RaiseFrom, Linked, GraphOf, ValidTargets, Nodes, WellFormed;
      RaiseMonotone(GraphOf(listeners), target, rank[n], rank);
      GraphLinked(listeners, nextRef, n, target);
      var visited;
      changed, visited := EnsureBiggerThan(target, rank[n], {});
      nextRef := nextRef + 1;
      ref := nextRef;
      listeners := listeners[n := listeners[n] + [Target(target, ref)]];
    }

    /** `unlink_to`: drop the registration, whatever its place; a deleted node is left alone. */
    method UnlinkTo(n: NodeId, ref: nat)
      requires Valid()
      modifies this`listeners
      ensures Valid()
      ensures n !in old(listeners) ==> listeners == old(listeners)
      ensures n in old(listeners) ==> listeners == old(listeners)[n := Keep(old(listeners)[n], ref)]
    {
      if n in listeners {
        var kept, changed := RemoveTarget(listeners[n], ref);
        if changed {
          listeners := listeners[n := kept];
        }
        assert listeners == old(listeners)[n := kept];
        GraphWellFormed(listeners, nextRef);
      }
    }

    method RemoveTarget(ls: seq<Target>, ref: nat) returns (kept: seq<Target>, changed: bool)
      ensures kept == Keep(ls, ref) && (!changed ==> kept == ls)
    {
      kept, changed := [], false;
      for i := 0 to |ls|
        invariant kept == Keep(ls[..i], ref) && (!changed ==> kept == ls[..i])
      {
        KeepAppend(ls[..i], ls[i], ref);
        assert ls[..i + 1] == ls[..i] + [ls[i]];
        if ls[i].ref == ref {
          changed := true;
        } else {
          kept := kept + [ls[i]];
        }
      }
      assert ls[..|ls|] == ls;
    }
  }

  /** A raise leaves the nodes already visited alone. */
  lemma RaisedKeeps(g: Graph<NodeId>, n: NodeId, limit: nat, a: Rank, s: set<NodeId>)
    requires WellFormed(g) && n in g && a.Keys == g.Keys && s <= g.Keys
    ensures forall x :: x in s ==> Raise(g, n, limit, a, s).0[x] == a[x]
  {
    var via := RaiseTraced(g, g.Keys, n, limit, a, s);
  }

  /** Undoing a link by its number restores the listeners. */
  lemma UnlinkUndoesLink(ls: seq<Target>, target: NodeId, ref: nat)
    requires forall t :: t in ls ==> t.ref < ref
    ensures Keep(ls + [Target(target, ref)], ref) == ls
  {
    KeepAppend(ls, Target(target, ref), ref);
    KeepAll(ls, ref);
  }
}
