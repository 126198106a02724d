/** Finite directed multigraphs: a map from each node to the list of its children, repetitions kept.
    A node reaches everything in the least child-closed set that contains it, so every reachability
    argument below is an argument about closed sets. */
module Graphs {
  type Graph<N> = map<N, seq<N>>

  /** Every child is itself a node of the graph. */
  ghost predicate WellFormed<N>(g: Graph<N>) {
    forall p, c :: p in g && c in g[p] ==> c in g
  }

  /** No edge of the graph leaves `S`. */
  ghost predicate Closed<N>(g: Graph<N>, S: set<N>) {
    forall p, c :: p in S && p in g && c in g[p] ==> c in S
  }

  ghost function Successors<N>(g: Graph<N>, S: set<N>): set<N> {
    set p, c | p in S && p in g && c in g[p] :: c
  }

  /** Everything reachable from `S`: the least closed superset of `S` (the second clause says closed,
      `ReachLeast` says least). */
  ghost function Reach<N>(g: Graph<N>, S: set<N>): (r: set<N>)
    requires WellFormed(g)
    ensures S <= r && Closed(g, r)
    ensures S <= g.Keys ==> r <= g.Keys
    decreases g.Keys - S
  {
    var T := S + Successors(g, S);
    if T == S then S
    else
      assert g.Keys - T < g.Keys - S by {
        var c :| c in T && c !in S;
        assert c in g.Keys - S && c !in g.Keys - T;
      }
      Reach(g, T)
  }

  lemma {:induction false} ReachLeast<N>(g: Graph<N>, S: set<N>, C: set<N>)
    requires WellFormed(g) && S <= C && Closed(g, C)
    ensures Reach(g, S) <= C
    decreases g.Keys - S
  {
    var T := S + Successors(g, S);
    if T != S {
      assert g.Keys - T < g.Keys - S by {
        var c :| c in T && c !in S;
        assert c in g.Keys - S && c !in g.Keys - T;
      }
      ReachLeast(g, T, C);
    }
  }

  /** A walk along the edges of the graph. */
  ghost predicate Path<N>(g: Graph<N>, p: seq<N>, x: N) {
    p != [] && p[|p| - 1] == x && forall i :: 0 <= i < |p| - 1 ==> p[i] in g && p[i + 1] in g[p[i]]
  }

  /** What is reached is what a path leads to. */
  lemma ReachByPath<N(!new)>(g: Graph<N>, S: set<N>, x: N)
    requires WellFormed(g)
    ensures x in Reach(g, S) <==> exists p :: Path(g, p, x) && p[0] in S
  {
    if x in Reach(g, S) {
      var p := PathTo(g, S, x);
    }
    if exists p :: Path(g, p, x) && p[0] in S {
      var p :| Path(g, p, x) && p[0] in S;
      PathStays(g, Reach(g, S), p, x);
    }
  }

  lemma {:induction false} PathStays<N>(g: Graph<N>, C: set<N>, p: seq<N>, x: N)
    requires Closed(g, C) && Path(g, p, x) && p[0] in C
    ensures x in C
    decreases |p|
  {
    if |p| > 1 {
      var y := p[|p| - 2];
      assert Path(g, p[..|p| - 1], y);
      PathStays(g, C, p[..|p| - 1], y);
      assert p[|p| - 2 + 1] in g[p[|p| - 2]];
    }
  }

  lemma {:induction false} PathTo<N(!new)>(g: Graph<N>, S: set<N>, x: N) returns (p: seq<N>)
    requires WellFormed(g) && x in Reach(g, S)
    ensures Path(g, p, x) && p[0] in S
    decreases g.Keys - S
  {
    var T := S + Successors(g, S);
    if T == S {
      p := [x];
    } else {
      assert g.Keys - T < g.Keys - S by {
        var c :| c in T && c !in S;
        assert c in g.Keys - S && c !in g.Keys - T;
      }
      p := PathTo(g, T, x);
      if p[0] !in S {
        var s :| s in S && s in g && p[0] in g[s];
        p := [s] + p;
      }
    }
  }

  /** How many edges from nodes of `S` enter `x`, counted with multiplicity. */
  ghost function InEdges<N>(g: Graph<N>, S: set<N>, x: N): nat
    requires S <= g.Keys
  {
    if S == {} then 0
    else
      var p :| p in S;
      multiset(g[p])[x] + InEdges(g, S - {p}, x)
  }

  lemma {:induction false} InEdgesSplit<N>(g: Graph<N>, S: set<N>, p: N, x: N)
    requires S <= g.Keys && p in S
    ensures InEdges(g, S, x) == multiset(g[p])[x] + InEdges(g, S - {p}, x)
    decreases S
  {
    var q :| q in S && InEdges(g, S, x) == multiset(g[q])[x] + InEdges(g, S - {q}, x);
    if q != p {
      InEdgesSplit(g, S - {q}, p, x);
      InEdgesSplit(g, S - {p}, q, x);
      assert S - {q} - {p} == S - {p} - {q};
    }
  }

  /** Adding a node to the sources adds its own edges to every in-degree. */
  lemma InEdgesAdd<N>(g: Graph<N>, S: set<N>, p: N)
    requires S <= g.Keys && p in g && p !in S
    ensures forall x :: InEdges(g, S + {p}, x) == multiset(g[p])[x] + InEdges(g, S, x)
  {
    forall x
      ensures InEdges(g, S + {p}, x) == multiset(g[p])[x] + InEdges(g, S, x)
    {
      InEdgesSplit(g, S + {p}, p, x);
      assert S + {p} - {p} == S;
    }
  }

  lemma {:induction false} InEdgesPositive<N>(g: Graph<N>, S: set<N>, x: N)
    requires S <= g.Keys
    ensures InEdges(g, S, x) > 0 <==> exists p :: p in S && x in g[p]
    decreases S
  {
    if S != {} {
      var p :| p in S && InEdges(g, S, x) == multiset(g[p])[x] + InEdges(g, S - {p}, x);
      InEdgesPositive(g, S - {p}, x);
      assert multiset(g[p])[x] > 0 <==> x in g[p];
    }
  }

  /** Two graphs that agree on `S` have the same edges out of `S`. */
  lemma {:induction false} InEdgesAgree<N>(g: Graph<N>, h: Graph<N>, S: set<N>, x: N)
    requires S <= g.Keys && S <= h.Keys
    requires forall p :: p in S ==> g[p] == h[p]
    ensures InEdges(g, S, x) == InEdges(h, S, x)
    decreases S
  {
    if S != {} {
      var p :| p in S;
      InEdgesSplit(g, S, p, x);
      InEdgesSplit(h, S, p, x);
      InEdgesAgree(g, h, S - {p}, x);
    }
  }
}
