/** What the handle operations keep, on snapshots of the heap. Handles on the stack and handles inside a
    contents being destroyed are all `ext`: destroying a contents first turns its edges into handles. */
module Handles {
  import opened Graphs
  import opened TrialDeletion
  import opened CycleCollection
  import opened Wrappers

  /** The nodes that a program can still get at. */
  ghost function Reachable<N>(g: Graph<N>, ext: multiset<N>): set<N>
    requires WellFormed(g)
  {
    Reach(g, Externals(g, ext))
  }

  /** It is what a path leads to from a node with a handle outside. */
  lemma ReachableByPath<N(!new)>(g: Graph<N>, ext: multiset<N>, x: N)
    requires WellFormed(g)
    ensures x in Reachable(g, ext) <==> exists p :: Path(g, p, x) && p[0] in g && ext[p[0]] > 0
  {
    ReachByPath(g, Externals(g, ext), x);
    assert forall p :: Path(g, p, x) ==> (p[0] in Externals(g, ext) <==> p[0] in g && ext[p[0]] > 0);
  }

  /** No node is lost: each is below an external handle or below a purple node. */
  ghost predicate Covered<N>(g: Graph<N>, col: Colours<N>, ext: multiset<N>)
    requires WellFormed(g)
  {
    Reach(g, Externals(g, ext) + Having(col, Purple)) == g.Keys
  }

  ghost predicate Sound<N>(g: Graph<N>, col: Colours<N>, cnt: Counts<N>, buf: map<N, bool>, roots: set<N>, ext: multiset<N>) {
    Consistent(g, col, cnt, buf, roots, ext) && Covered(g, col, ext)
  }

  /** No garbage node refers to a node still in use. */
  ghost predicate GarbageClosed<N>(g: Graph<N>, ext: multiset<N>)
    requires WellFormed(g)
  {
    forall p, c :: p in g && p !in Reachable(g, ext) && c in g[p] ==> c !in Reachable(g, ext)
  }

  // ---- edges and in-degrees under the changes that the operations make ----

  lemma InEdgesWithout<N>(g: Graph<N>, n: N)
    requires n in g
    ensures forall x :: InEdges(g - {n}, g.Keys - {n}, x) + multiset(g[n])[x] == InEdges(g, g.Keys, x)
  {
    forall x
      ensures InEdges(g - {n}, g.Keys - {n}, x) + multiset(g[n])[x] == InEdges(g, g.Keys, x)
    {
      InEdgesSplit(g, g.Keys, n, x);
      InEdgesAgree(g, g - {n}, g.Keys - {n}, x);
    }
  }

  lemma InEdgesReplaced<N>(g: Graph<N>, n: N, s: seq<N>)
    requires n in g
    ensures forall x :: InEdges(g[n := s], g.Keys, x) + multiset(g[n])[x] == InEdges(g, g.Keys, x) + multiset(s)[x]
  {
    var h := g[n := s];
    assert h.Keys == g.Keys;
    forall x
      ensures InEdges(h, g.Keys, x) + multiset(g[n])[x] == InEdges(g, g.Keys, x) + multiset(s)[x]
    {
      InEdgesSplit(g, g.Keys, n, x);
      InEdgesSplit(h, g.Keys, n, x);
      InEdgesAgree(g, h, g.Keys - {n}, x);
    }
  }

  lemma InEdgesAppended<N>(g: Graph<N>, r: N, c: N)
    requires r in g
    ensures var h := g[r := g[r] + [c]];
            forall x :: InEdges(h, h.Keys, x) == InEdges(g, g.Keys, x) + if x == c then 1 else 0
  {
    InEdgesReplaced(g, r, g[r] + [c]);
    assert g[r := g[r] + [c]].Keys == g.Keys;
    assert multiset(g[r] + [c]) == multiset(g[r]) + multiset{c};
  }

  // ---- coverage ----

  lemma CoveredBySame<N>(g: Graph<N>, a: Colours<N>, ext: multiset<N>, b: Colours<N>, ext': multiset<N>)
    requires WellFormed(g) && a.Keys == g.Keys == b.Keys && Covered(g, a, ext)
    requires forall x :: x in g && (ext[x] > 0 || a[x] == Purple) ==> ext'[x] > 0 || b[x] == Purple
    ensures Covered(g, b, ext')
  {
    ReachMonotone(g, Externals(g, ext) + Having(a, Purple), Externals(g, ext') + Having(b, Purple));
  }

  lemma CoveredWithout<N>(g: Graph<N>, col: Colours<N>, ext: multiset<N>, n: N, ext': multiset<N>)
    requires WellFormed(g) && WellFormed(g - {n}) && col.Keys == g.Keys && n in g && Covered(g, col, ext)
    requires forall x :: x in g && x != n && (ext[x] > 0 || x in g[n]) ==> ext'[x] > 0
    ensures Covered(g - {n}, col - {n}, ext')
  {
    var h, T := g - {n}, Externals(g - {n}, ext') + Having(col - {n}, Purple);
    var D := Reach(h, T) + {n};
    forall p, c | p in D && p in g && c in g[p]
      ensures c in D
    {
      if p == n && c != n {
        assert c in T;
      } else if p != n {
        assert h[p] == g[p];
      }
    }
    ReachLeast(g, Externals(g, ext) + Having(col, Purple), D);
  }

  lemma CoveredCleared<N>(g: Graph<N>, col: Colours<N>, ext: multiset<N>, r: N, ext': multiset<N>)
    requires WellFormed(g) && WellFormed(g[r := []]) && col.Keys == g.Keys && r in g && Covered(g, col, ext)
    requires forall x :: x in g && (ext[x] > 0 || x in g[r]) ==> ext'[x] > 0
    ensures Covered(g[r := []], col, ext')
  {
    var h, T := g[r := []], Externals(g[r := []], ext') + Having(col, Purple);
    var D := Reach(h, T);
    forall p, c | p in D && p in g && c in g[p]
      ensures c in D
    {
      if p == r {
        assert c in T;
      }
    }
    ReachLeast(g, Externals(g, ext) + Having(col, Purple), D);
  }

  lemma CoveredCreated<N>(g: Graph<N>, col: Colours<N>, ext: multiset<N>, n: N)
    requires WellFormed(g) && col.Keys == g.Keys && n !in g && Covered(g, col, ext)
    ensures WellFormed(g[n := []]) && Covered(g[n := []], col[n := Black], ext + multiset{n})
  {
    var h, b, ext' := g[n := []], col[n := Black], ext + multiset{n};
    var T := Externals(h, ext') + Having(b, Purple);
    assert n in T;
    ReachLeast(g, Externals(g, ext) + Having(col, Purple), Reach(h, T));
  }

  lemma CoveredAttached<N>(g: Graph<N>, a: Colours<N>, ext: multiset<N>, r: N, c: N)
    requires WellFormed(g) && a.Keys == g.Keys && r in g && Covered(g, a, ext) && r in Reachable(g, ext) && c in g
    ensures var h := g[r := g[r] + [c]]; WellFormed(h) && Covered(h, a[c := Black], ext)
    ensures Reachable(g, ext) <= Reachable(g[r := g[r] + [c]], ext)
  {
    var h, b := g[r := g[r] + [c]], a[c := Black];
    var D := Reach(h, Externals(h, ext) + Having(b, Purple));
    assert Externals(h, ext) == Externals(g, ext);
    forall p, x | p in g && x in g[p]
      ensures x in h[p]
    {}
    ReachLeast(g, Externals(g, ext), Reachable(h, ext));
    ReachMonotone(h, Externals(h, ext), Externals(h, ext) + Having(b, Purple));
    assert r in D && c in h[r] && c in D;
    forall x | x in Having(a, Purple)
      ensures x in D
    {
      assert x != c ==> x in Having(b, Purple);
    }
    ReachLeast(g, Externals(g, ext) + Having(a, Purple), D);
  }

  // ---- counts ----

  lemma CreateExact<N>(g: Graph<N>, cnt: Counts<N>, ext: multiset<N>, n: N)
    requires Exact(g, cnt, ext) && n !in g
    ensures Exact(g[n := []], cnt[n := 1], ext + multiset{n})
  {
    var h := g[n := []];
    assert h - {n} == g && h.Keys - {n} == g.Keys;
    InEdgesWithout(h, n);
    InEdgesPositive(g, g.Keys, n);
  }

  lemma CopyExact<N>(g: Graph<N>, cnt: Counts<N>, ext: multiset<N>, l: N)
    requires Exact(g, cnt, ext) && l in g
    ensures Exact(g, cnt[l := cnt[l] + 1], ext + multiset{l})
  {}

  lemma DropExact<N>(g: Graph<N>, cnt: Counts<N>, ext: multiset<N>, l: N)
    requires Exact(g, cnt, ext) && ext[l] > 0 && l in g && cnt[l] > 1
    ensures Exact(g, cnt[l := cnt[l] - 1], ext - multiset{l})
  {}

  lemma ReleaseExact<N>(g: Graph<N>, cnt: Counts<N>, ext: multiset<N>, l: N)
    requires Exact(g, cnt, ext) && ext[l] > 0 && l in g && cnt[l] == 1
    ensures Exact(g - {l}, cnt - {l}, ext - multiset{l} + multiset(g[l]))
  {
    InEdgesPositive(g, g.Keys, l);
    assert (g - {l}).Keys == g.Keys - {l};
    InEdgesWithout(g, l);
    assert forall x :: x in multiset(g[l]) <==> x in g[l];
  }

  lemma ClearExact<N>(g: Graph<N>, cnt: Counts<N>, ext: multiset<N>, r: N)
    requires Exact(g, cnt, ext) && r in g
    ensures Exact(g[r := []], cnt, ext + multiset(g[r]))
  {
    assert g[r := []].Keys == g.Keys;
    InEdgesReplaced(g, r, []);
    assert forall x :: x in multiset(g[r]) <==> x in g[r];
  }

  lemma AttachExact<N>(g: Graph<N>, cnt: Counts<N>, ext: multiset<N>, r: N, c: N)
    requires Exact(g, cnt, ext) && r in g && c in g
    ensures Exact(g[r := g[r] + [c]], cnt[c := cnt[c] + 1], ext)
  {
    InEdgesAppended(g, r, c);
    assert g[r := g[r] + [c]].Keys == g.Keys;
    hide InEdges;
  }

  // ---- colours and buffers ----

  lemma CreateFlags<N>(g: Graph<N>, col: Colours<N>, buf: map<N, bool>, roots: set<N>, n: N)
    requires Flagged(g, col, buf, roots) && n !in g
    ensures Flagged(g[n := []], col[n := Black], buf[n := false], roots)
  {}

  lemma CopyFlags<N>(g: Graph<N>, col: Colours<N>, buf: map<N, bool>, roots: set<N>, l: N)
    requires Flagged(g, col, buf, roots) && l in g
    ensures Flagged(g, col[l := Black], buf, roots)
  {}

  lemma DropFlags<N>(g: Graph<N>, col: Colours<N>, buf: map<N, bool>, roots: set<N>, l: N)
    requires Flagged(g, col, buf, roots) && l in g
    ensures Flagged(g, col[l := Purple], buf[l := true], roots + {l})
  {}

  lemma ReleaseFlags<N>(g: Graph<N>, col: Colours<N>, buf: map<N, bool>, roots: set<N>, l: N)
    requires Flagged(g, col, buf, roots) && l in g
    ensures Flagged(g - {l}, col - {l}, buf - {l}, roots - {l})
  {}

  // ---- the operations ----

  /** A new link starts black with one handle. */
  lemma CreateSound<N>(g: Graph<N>, col: Colours<N>, cnt: Counts<N>, buf: map<N, bool>, roots: set<N>, ext: multiset<N>,
              n: N)
    requires Sound(g, col, cnt, buf, roots, ext) && n !in g
    ensures Sound(g[n := []], col[n := Black], cnt[n := 1], buf[n := false], roots, ext + multiset{n})
  {
    hide Exact, Flagged, Covered;
    CreateParts(g, col, cnt, buf, roots, ext, n);
  }

  lemma CreateParts<N>(g: Graph<N>, col: Colours<N>, cnt: Counts<N>, buf: map<N, bool>, roots: set<N>, ext: multiset<N>,
              n: N)
    requires Sound(g, col, cnt, buf, roots, ext) && n !in g
    ensures Exact(g[n := []], cnt[n := 1], ext + multiset{n})
            && Flagged(g[n := []], col[n := Black], buf[n := false], roots)
            && Covered(g[n := []], col[n := Black], ext + multiset{n})
  {
    CreateExact(g, cnt, ext, n);
    CreateFlags(g, col, buf, roots, n);
    CoveredCreated(g, col, ext, n);
    hide Exact, Flagged, Covered;
  }

  /** A new handle: the count goes up and the node turns black. */
  lemma CopySound<N>(g: Graph<N>, col: Colours<N>, cnt: Counts<N>, buf: map<N, bool>, roots: set<N>, ext: multiset<N>,
            l: N)
    requires Sound(g, col, cnt, buf, roots, ext) && l in g && l in cnt
    ensures Sound(g, col[l := Black], cnt[l := cnt[l] + 1], buf, roots, ext + multiset{l})
  {
    hide Exact, Flagged, Covered;
    CopyParts(g, col, cnt, buf, roots, ext, l);
  }

  lemma CopyParts<N>(g: Graph<N>, col: Colours<N>, cnt: Counts<N>, buf: map<N, bool>, roots: set<N>, ext: multiset<N>,
            l: N)
    requires Sound(g, col, cnt, buf, roots, ext) && l in g && l in cnt
    ensures Exact(g, cnt[l := cnt[l] + 1], ext + multiset{l})
            && Flagged(g, col[l := Black], buf, roots)
            && Covered(g, col[l := Black], ext + multiset{l})
  {
    CopyExact(g, cnt, ext, l);
    CopyFlags(g, col, buf, roots, l);
    CoveredBySame(g, col, ext, col[l := Black], ext + multiset{l});
    hide Exact, Flagged, Covered;
  }

  /** A handle dropped with others left: the node becomes a possible root. */
  lemma DropSound<N>(g: Graph<N>, col: Colours<N>, cnt: Counts<N>, buf: map<N, bool>, roots: set<N>, ext: multiset<N>,
            l: N)
    requires Sound(g, col, cnt, buf, roots, ext) && ext[l] > 0 && l in g && l in cnt && cnt[l] > 1
    ensures Sound(g, col[l := Purple], cnt[l := cnt[l] - 1], buf[l := true], roots + {l}, ext - multiset{l})
  {
    hide Exact, Flagged, Covered;
    DropParts(g, col, cnt, buf, roots, ext, l);
  }

  lemma DropParts<N>(g: Graph<N>, col: Colours<N>, cnt: Counts<N>, buf: map<N, bool>, roots: set<N>, ext: multiset<N>,
            l: N)
    requires Sound(g, col, cnt, buf, roots, ext) && ext[l] > 0 && l in g && l in cnt && cnt[l] > 1
    ensures Exact(g, cnt[l := cnt[l] - 1], ext - multiset{l})
            && Flagged(g, col[l := Purple], buf[l := true], roots + {l})
            && Covered(g, col[l := Purple], ext - multiset{l})
  {
    DropExact(g, cnt, ext, l);
    DropFlags(g, col, buf, roots, l);
    CoveredBySame(g, col, ext, col[l := Purple], ext - multiset{l});
    hide Exact, Flagged, Covered;
  }

  /** The last handle dropped: the link is freed and its contents' handles are left to be dropped. */
  lemma ReleaseSound<N>(g: Graph<N>, col: Colours<N>, cnt: Counts<N>, buf: map<N, bool>, roots: set<N>, ext: multiset<N>,
               l: N)
    requires Sound(g, col, cnt, buf, roots, ext) && ext[l] > 0 && l in g && l in cnt && cnt[l] == 1
    ensures Sound(g - {l}, col - {l}, cnt - {l}, buf - {l}, roots - {l}, ext - multiset{l} + multiset(g[l]))
  {
    hide Exact, Flagged, Covered;
    ReleaseParts(g, col, cnt, buf, roots, ext, l);
  }

  lemma ReleaseParts<N>(g: Graph<N>, col: Colours<N>, cnt: Counts<N>, buf: map<N, bool>, roots: set<N>, ext: multiset<N>,
               l: N)
    requires Sound(g, col, cnt, buf, roots, ext) && ext[l] > 0 && l in g && l in cnt && cnt[l] == 1
    ensures Exact(g - {l}, cnt - {l}, ext - multiset{l} + multiset(g[l]))
            && Flagged(g - {l}, col - {l}, buf - {l}, roots - {l})
            && Covered(g - {l}, col - {l}, ext - multiset{l} + multiset(g[l]))
  {
    ReleaseExact(g, cnt, ext, l);
    ReleaseFlags(g, col, buf, roots, l);
    CoveredWithout(g, col, ext, l, ext - multiset{l} + multiset(g[l]));
    hide Exact, Flagged, Covered;
  }

  /** Emptying a contents: its edges become handles still to be dropped. */
  lemma ClearSound<N>(g: Graph<N>, col: Colours<N>, cnt: Counts<N>, buf: map<N, bool>, roots: set<N>, ext: multiset<N>,
             r: N)
    requires Sound(g, col, cnt, buf, roots, ext) && r in g
    ensures Sound(g[r := []], col, cnt, buf, roots, ext + multiset(g[r]))
  {
    hide Exact, Flagged, Covered;
    ClearParts(g, col, cnt, buf, roots, ext, r);
  }

  lemma ClearParts<N>(g: Graph<N>, col: Colours<N>, cnt: Counts<N>, buf: map<N, bool>, roots: set<N>, ext: multiset<N>,
             r: N)
    requires Sound(g, col, cnt, buf, roots, ext) && r in g
    ensures Exact(g[r := []], cnt, ext + multiset(g[r]))
            && Flagged(g[r := []], col, buf, roots)
            && Covered(g[r := []], col, ext + multiset(g[r]))
  {
    ClearExact(g, cnt, ext, r);
    CoveredCleared(g, col, ext, r, ext + multiset(g[r]));
    hide Exact, Flagged, Covered;
  }

  /** A handle copied into a contents: the count goes up, the node turns black, and an edge appears. */
  lemma AttachSound<N>(g: Graph<N>, col: Colours<N>, cnt: Counts<N>, buf: map<N, bool>, roots: set<N>, ext: multiset<N>,
              r: N, c: N)
    requires Sound(g, col, cnt, buf, roots, ext) && r in g && c in g && c in cnt && WellFormed(g) && r in Reachable(g, ext)
    ensures Sound(g[r := g[r] + [c]], col[c := Black], cnt[c := cnt[c] + 1], buf, roots, ext)
  {
    hide Exact, Flagged, Covered;
    AttachParts(g, col, cnt, buf, roots, ext, r, c);
  }

  lemma AttachParts<N>(g: Graph<N>, col: Colours<N>, cnt: Counts<N>, buf: map<N, bool>, roots: set<N>, ext: multiset<N>,
              r: N, c: N)
    requires Sound(g, col, cnt, buf, roots, ext) && r in g && c in g && c in cnt && WellFormed(g) && r in Reachable(g, ext)
    ensures Exact(g[r := g[r] + [c]], cnt[c := cnt[c] + 1], ext)
            && Flagged(g[r := g[r] + [c]], col[c := Black], buf, roots)
            && Covered(g[r := g[r] + [c]], col[c := Black], ext)
  {
    AttachExact(g, cnt, ext, r, c);
    CopyFlags(g, col, buf, roots, c);
    CoveredAttached(g, col, ext, r, c);
    hide Exact, Flagged, Covered;
  }

  lemma DropFacts<N>(g: Graph<N>, col: Colours<N>, cnt: Counts<N>, buf: map<N, bool>, roots: set<N>, ext: multiset<N>, l: N)
    requires Sound(g, col, cnt, buf, roots, ext) && ext[l] > 0
    ensures WellFormed(g) && l in g && l in cnt && l in col && l in buf && cnt[l] > 0
    ensures col[l] == Purple ==> col[l := Purple] == col
    ensures col[l] == Purple || buf[l] ==> buf[l := true] == buf && roots + {l} == roots
    ensures !buf[l] ==> roots - {l} == roots
  {
    assert l in ext;
  }

  /** A node turned into a possible root without any count changing. */
  lemma PossibleRootSound<N>(g: Graph<N>, col: Colours<N>, cnt: Counts<N>, buf: map<N, bool>, roots: set<N>,
                             ext: multiset<N>, l: N)
    requires Sound(g, col, cnt, buf, roots, ext) && l in g
    ensures Sound(g, col[l := Purple], cnt, buf[l := true], roots + {l}, ext)
  {
    PossibleRootParts(g, col, cnt, buf, roots, ext, l);
    hide Exact, Flagged, Covered;
  }

  lemma PossibleRootParts<N>(g: Graph<N>, col: Colours<N>, cnt: Counts<N>, buf: map<N, bool>, roots: set<N>,
                             ext: multiset<N>, l: N)
    requires Sound(g, col, cnt, buf, roots, ext) && l in g
    ensures Exact(g, cnt, ext) && Flagged(g, col[l := Purple], buf[l := true], roots + {l})
            && Covered(g, col[l := Purple], ext)
  {
    hide Exact;
    DropFlags(g, col, buf, roots, l);
    CoveredBySame(g, col, ext, col[l := Purple], ext);
    hide Exact, Flagged, Covered;
  }

  // ---- what dropping handles frees ----

  /** Nothing outside `F` holds `x`: no external handle, and no link that is not in `F`. */
  ghost predicate HeldOnlyBy<N>(g: Graph<N>, ext: multiset<N>, F: set<N>, x: N) {
    x in g && ext[x] == 0 && forall p :: p in g && x in g[p] ==> p in F
  }

  /** Every node held only by nodes of `F` is itself in `F`. */
  ghost predicate OrphanClosed<N>(g: Graph<N>, ext: multiset<N>, F: set<N>) {
    forall x :: x in g && HeldOnlyBy(g, ext, F, x) ==> x in F
  }

  /** What reference counting alone frees when the external handles are `ext`: the least set that
      contains every node held only by nodes of the set. A garbage cycle is not in it. */
  ghost function Orphans<N>(g: Graph<N>, ext: multiset<N>): (r: set<N>)
    ensures r <= g.Keys && OrphanClosed(g, ext, r)
  {
    OrphansFrom(g, ext, {})
  }

  ghost function OrphansFrom<N>(g: Graph<N>, ext: multiset<N>, F: set<N>): (r: set<N>)
    requires F <= g.Keys
    ensures F <= r <= g.Keys && OrphanClosed(g, ext, r)
    decreases g.Keys - F
  {
    var T := F + set x | x in g && HeldOnlyBy(g, ext, F, x);
    if T == F then F
    else
      assert g.Keys - T < g.Keys - F by {
        var c :| c in T && c !in F;
        assert c in g.Keys - F && c !in g.Keys - T;
      }
      OrphansFrom(g, ext, T)
  }

  lemma {:induction false} OrphansFromLeast<N>(g: Graph<N>, ext: multiset<N>, F: set<N>, C: set<N>)
    requires F <= g.Keys && F <= C && OrphanClosed(g, ext, C)
    ensures OrphansFrom(g, ext, F) <= C
    decreases g.Keys - F
  {
    var T := F + set x | x in g && HeldOnlyBy(g, ext, F, x);
    if T != F {
      assert g.Keys - T < g.Keys - F by {
        var c :| c in T && c !in F;
        assert c in g.Keys - F && c !in g.Keys - T;
      }
      forall x | x in T
        ensures x in C
      {
        assert HeldOnlyBy(g, ext, F, x) ==> HeldOnlyBy(g, ext, C, x);
      }
      OrphansFromLeast(g, ext, T, C);
    }
  }

  lemma OrphansLeast<N>(g: Graph<N>, ext: multiset<N>, C: set<N>)
    requires OrphanClosed(g, ext, C)
    ensures Orphans(g, ext) <= C
  {
    OrphansFromLeast(g, ext, {}, C);
  }

  /** With fewer handles, no fewer links are freed. */
  lemma OrphansMonotone<N>(g: Graph<N>, more: multiset<N>, fewer: multiset<N>)
    requires fewer <= more
    ensures Orphans(g, more) <= Orphans(g, fewer)
  {
    var F := Orphans(g, fewer);
    forall x | x in g && HeldOnlyBy(g, more, F, x)
      ensures x in F
    {
      assert HeldOnlyBy(g, fewer, F, x);
    }
    OrphansLeast(g, more, F);
  }

  /** Freeing may proceed in any order: once some of the orphans are gone, what is left to free is what
      the smaller heap's own orphans are. */
  lemma OrphansStepwise<N>(g: Graph<N>, ext: multiset<N>, S: set<N>)
    requires S <= Orphans(g, ext)
    ensures Orphans(g, ext) == S + Orphans(g - S, ext)
  {
    var h, F := g - S, Orphans(g, ext);
    var R := Orphans(h, ext);
    forall x | x in g && HeldOnlyBy(g, ext, S + R, x)
      ensures x in S + R
    {
      if x !in S {
        assert HeldOnlyBy(h, ext, R, x);
      }
    }
    OrphansLeast(g, ext, S + R);
    forall x | x in h && HeldOnlyBy(h, ext, F - S, x)
      ensures x in F - S
    {
      assert HeldOnlyBy(g, ext, F, x) by {
        forall p | p in g && x in g[p]
          ensures p in F
        {
          assert p !in S ==> p in h && h[p] == g[p];
        }
      }
    }
    OrphansLeast(h, ext, F - S);
  }

  /** Dropping handles one after the other frees in the end what dropping them at once would. */
  lemma OrphansCompose<N>(g: Graph<N>, more: multiset<N>, fewer: multiset<N>)
    requires fewer <= more
    ensures var h := g - Orphans(g, more); h - Orphans(h, fewer) == g - Orphans(g, fewer)
  {
    OrphansMonotone(g, more, fewer);
    OrphansStepwise(g, fewer, Orphans(g, more));
  }

  /** In a sound heap nothing is waiting to be freed. */
  lemma NoOrphans<N>(g: Graph<N>, cnt: Counts<N>, ext: multiset<N>)
    requires Exact(g, cnt, ext)
    ensures Orphans(g, ext) == {} && g - Orphans(g, ext) == g
  {
    forall x | x in g
      ensures !HeldOnlyBy(g, ext, {}, x)
    {
      if HeldOnlyBy(g, ext, {}, x) {
        InEdgesPositive(g, g.Keys, x);
      }
    }
    OrphansLeast(g, ext, {});
  }

  /** Dropping one of several references to a node frees nothing; dropping the last one frees the node. */
  lemma OrphansOfDrop<N>(g: Graph<N>, cnt: Counts<N>, ext: multiset<N>, n: N)
    requires Exact(g, cnt, ext) && ext[n] > 0 && n in g && n in cnt
    ensures cnt[n] > 1 ==> Orphans(g, ext - multiset{n}) == {} && g - Orphans(g, ext - multiset{n}) == g
    ensures cnt[n] == 1 ==> n in Orphans(g, ext - multiset{n})
  {
    var ext' := ext - multiset{n};
    InEdgesPositive(g, g.Keys, n);
    if cnt[n] == 1 {
      assert HeldOnlyBy(g, ext', Orphans(g, ext'), n);
    } else {
      forall x | x in g
        ensures !HeldOnlyBy(g, ext', {}, x)
      {
        if HeldOnlyBy(g, ext', {}, x) {
          InEdgesPositive(g, g.Keys, x);
        }
      }
      OrphansLeast(g, ext', {});
    }
  }

  /** Freeing a link whose last handle goes leaves its own contents' orphans to free. */
  lemma OrphansReleased<N>(g: Graph<N>, cnt: Counts<N>, ext: multiset<N>, n: N)
    requires Exact(g, cnt, ext) && ext[n] > 0 && n in g && n in cnt && cnt[n] == 1
    ensures var ext' := ext - multiset{n}; g - {n} - Orphans(g - {n}, ext') == g - Orphans(g, ext')
  {
    OrphansOfDrop(g, cnt, ext, n);
    OrphansStepwise(g, ext - multiset{n}, {n});
  }

  /** What is in use is never an orphan. */
  lemma ReachableNotOrphaned<N>(g: Graph<N>, ext: multiset<N>)
    requires WellFormed(g)
    ensures Reachable(g, ext) !! Orphans(g, ext)
  {
    var C := g.Keys - Reachable(g, ext);
    forall x | x in g && HeldOnlyBy(g, ext, C, x)
      ensures x in C
    {
      if x in Reachable(g, ext) {
        UnheldNotReached(g, ext, x);
      }
    }
    OrphansLeast(g, ext, C);
  }

  lemma UnheldNotReached<N>(g: Graph<N>, ext: multiset<N>, x: N)
    requires WellFormed(g) && ext[x] == 0 && x in g
    requires forall p :: p in g && x in g[p] ==> p !in Reachable(g, ext)
    ensures x !in Reachable(g, ext)
  {
    ReachLeast(g, Externals(g, ext), Reachable(g, ext) - {x});
  }

  lemma SoundOrphans<N>(g: Graph<N>, col: Colours<N>, cnt: Counts<N>, buf: map<N, bool>, roots: set<N>, ext: multiset<N>)
    requires Sound(g, col, cnt, buf, roots, ext)
    ensures g - Orphans(g, ext) == g
  {
    NoOrphans(g, cnt, ext);
  }

  lemma DropOrphans<N>(g: Graph<N>, col: Colours<N>, cnt: Counts<N>, buf: map<N, bool>, roots: set<N>, ext: multiset<N>, n: N)
    requires Sound(g, col, cnt, buf, roots, ext) && ext[n] > 0
    ensures n in cnt && (cnt[n] > 1 ==> g - Orphans(g, ext - multiset{n}) == g)
    ensures cnt[n] == 1 ==> n in Orphans(g, ext - multiset{n})
  {
    assert n in ext;
    OrphansOfDrop(g, cnt, ext, n);
  }

  lemma ReleaseOrphans<N>(g: Graph<N>, col: Colours<N>, cnt: Counts<N>, buf: map<N, bool>, roots: set<N>, ext: multiset<N>, n: N)
    requires Sound(g, col, cnt, buf, roots, ext) && ext[n] > 0 && n in cnt && cnt[n] == 1
    ensures var ext' := ext - multiset{n}; g - {n} - Orphans(g - {n}, ext') == g - Orphans(g, ext')
  {
    assert n in ext;
    OrphansReleased(g, cnt, ext, n);
  }

  lemma SoundFlags<N>(g: Graph<N>, col: Colours<N>, cnt: Counts<N>, buf: map<N, bool>, roots: set<N>, ext: multiset<N>, n: N)
    requires Sound(g, col, cnt, buf, roots, ext) && n in g
    ensures n in col && n in buf && (col[n] == Purple ==> buf[n]) && (buf[n] ==> n in roots)
  {}

  /** Every handle, outside or in a contents, leads to a link. */
  lemma SoundLinks<N>(g: Graph<N>, col: Colours<N>, cnt: Counts<N>, buf: map<N, bool>, roots: set<N>, ext: multiset<N>)
    requires Sound(g, col, cnt, buf, roots, ext)
    ensures WellFormed(g) && forall x :: x in ext ==> x in g
  {}

  // ---- nothing in use is ever freed ----

  /** A graph that kept some nodes, with their edges, and still holds every external handle, still has
      everything reachable. */
  lemma ReachableKept<N>(g: Graph<N>, h: Graph<N>, ext: multiset<N>)
    requires WellFormed(g) && WellFormed(h) && h.Keys <= g.Keys
    requires forall p :: p in h ==> h[p] == g[p]
    requires forall x :: x in g && ext[x] > 0 ==> x in h
    ensures Reachable(h, ext) == Reachable(g, ext) <= h.Keys
  {
    assert Externals(h, ext) == Externals(g, ext);
    ReachLeast(g, Externals(g, ext), Reachable(h, ext));
    ReachLeast(h, Externals(h, ext), Reachable(g, ext));
  }

  /** Emptying the contents of a node in use leaves the node itself in use. */
  lemma ClearedStaysReachable<N>(g: Graph<N>, ext: multiset<N>, r: N)
    requires WellFormed(g) && r in g && r in Reachable(g, ext)
    ensures WellFormed(g[r := []]) && r in Reachable(g[r := []], ext)
  {
    var h := g[r := []];
    assert Externals(h, ext) == Externals(g, ext);
    if r !in Reachable(h, ext) {
      ReachLeast(g, Externals(g, ext), Reachable(h, ext));
    }
  }

  lemma StillReachable<N>(g: Graph<N>, h: Graph<N>, col: Colours<N>, cnt: Counts<N>, buf: map<N, bool>, roots: set<N>,
                          ext: multiset<N>)
    requires Sound(h, col, cnt, buf, roots, ext)
    requires WellFormed(g) && h.Keys <= g.Keys && forall p :: p in h ==> h[p] == g[p]
    ensures WellFormed(h) && Reachable(g, ext) <= Reachable(h, ext) <= h.Keys
  {
    ReachableKept(g, h, ext);
  }

  lemma AttachFacts<N>(g: Graph<N>, col: Colours<N>, cnt: Counts<N>, buf: map<N, bool>, roots: set<N>, ext: multiset<N>,
                       r: N, c: N)
    requires Sound(g, col, cnt, buf, roots, ext) && r in g && c in g && r in Reachable(g, ext)
    ensures c in cnt && WellFormed(g[r := g[r] + [c]])
    ensures Reachable(g, ext) <= Reachable(g[r := g[r] + [c]], ext)
  {
    CoveredAttached(g, col, ext, r, c);
  }

  // ---- a collection finds exactly the garbage ----

  lemma CollectedIsGarbage<N>(g: Graph<N>, col: Colours<N>, cnt: Counts<N>, buf: map<N, bool>, roots: set<N>, ext: multiset<N>)
    requires Sound(g, col, cnt, buf, roots, ext)
    ensures Live(g, col, ext) == Reachable(g, ext)
    ensures Candidates(g, col) - Live(g, col, ext) == g.Keys - Reachable(g, ext)
  {
    var E, P := Externals(g, ext), Having(col, Purple);
    ReachLeast(g, E + P, Reach(g, E) + Reach(g, P));
    ReachLeast(g, E + (g.Keys - Candidates(g, col)), Reach(g, E));
    ReachMonotone(g, E, E + (g.Keys - Candidates(g, col)));
  }

  /** The heap without its garbage. */
  ghost function Swept<N>(g: Graph<N>, ext: multiset<N>): Graph<N>
    requires WellFormed(g)
  {
    g - (g.Keys - Reachable(g, ext))
  }

  lemma SweptKeeps<N>(g: Graph<N>, ext: multiset<N>)
    requires WellFormed(g)
    ensures Swept(g, ext).Keys == Reachable(g, ext)
    ensures forall x :: x in Swept(g, ext) ==> x in g && Swept(g, ext)[x] == g[x]
  {}

  /** Once no handle is left outside, all that remains is garbage, it is closed, and sweeping it leaves
      nothing. */
  lemma NothingLeaks<N>(g: Graph<N>)
    requires WellFormed(g)
    ensures Reachable(g, multiset{}) == {} && GarbageClosed(g, multiset{}) && Swept(g, multiset{}) == map[]
  {
    var none: set<N> := {};
    assert Externals(g, multiset{}) == none;
    ReachLeast(g, none, none);
  }

  lemma SoundDomain<N>(g: Graph<N>, col: Colours<N>, cnt: Counts<N>, buf: map<N, bool>, roots: set<N>, ext: multiset<N>, n: N)
    requires Sound(g, col, cnt, buf, roots, ext) && n in g
    ensures n in col && n in cnt && n in buf
  {}

  lemma SoundConsistent<N>(g: Graph<N>, col: Colours<N>, cnt: Counts<N>, buf: map<N, bool>, roots: set<N>, ext: multiset<N>)
    requires Sound(g, col, cnt, buf, roots, ext)
    ensures Consistent(g, col, cnt, buf, roots, ext) && Reachable(g, ext) <= g.Keys
  {}

  lemma SurvivedFacts<N>(g: Graph<N>, col0: Colours<N>, cnt0: Counts<N>, buf0: map<N, bool>, roots0: set<N>,
                         ext: multiset<N>, col: Colours<N>, cnt: Counts<N>, buf: map<N, bool>, t: set<N>)
    requires Sound(g, col0, cnt0, buf0, roots0, ext) && t == g.Keys - Reachable(g, ext)
    requires Survived(g, col, cnt, buf, ext, g.Keys - t)
    ensures t <= g.Keys && g.Keys == col.Keys == cnt.Keys == buf.Keys && g.Keys - t == Reachable(g, ext)
    ensures forall x :: x in g ==> cnt[x] == ext[x] + InEdges(g, Reachable(g, ext), x)
    ensures GarbageClosed(g, ext) <==> forall p, c :: p in t && c in g[p] ==> c in t
    ensures forall p, c :: p in t && c in g[p] && c !in t ==> c in Reachable(g, ext) && c in g
  {
    assert g.Keys - t == Reachable(g, ext);
  }

  /** With closed garbage, deleting it leaves a sound heap: no edge into a survivor is lost. */
  lemma SweptSound<N>(g: Graph<N>, col0: Colours<N>, cnt0: Counts<N>, buf0: map<N, bool>, roots0: set<N>,
                      ext: multiset<N>, col: Colours<N>, cnt: Counts<N>, buf: map<N, bool>, t: set<N>)
    requires Sound(g, col0, cnt0, buf0, roots0, ext) && t == g.Keys - Reachable(g, ext)
    requires Survived(g, col, cnt, buf, ext, g.Keys - t) && GarbageClosed(g, ext)
    ensures g - t == Swept(g, ext) && Sound(g - t, col - t, cnt - t, buf - t, {}, ext)
  {
    var L := Reachable(g, ext);
    assert WellFormed(g) && (g - t).Keys == L == g.Keys - t;
    SweptExact(g, g - t, L, cnt0, cnt, ext, t);
    SweptCovered(g, col, ext, t);
    SweptFlags(g, col, buf, t);
    hide Exact, Flagged, Covered, Reachable;
  }

  lemma SweptFlags<N>(g: Graph<N>, col: Colours<N>, buf: map<N, bool>, t: set<N>)
    requires col.Keys == g.Keys == buf.Keys && forall x :: x in g ==> col[x] == Black && !buf[x]
    ensures Flagged(g - t, col - t, buf - t, {})
  {}

  lemma SweptCovered<N>(g: Graph<N>, col: Colours<N>, ext: multiset<N>, t: set<N>)
    requires WellFormed(g) && t == g.Keys - Reachable(g, ext) && col.Keys == g.Keys
    requires forall x :: x in g ==> col[x] == Black
    ensures WellFormed(g - t) && Covered(g - t, col - t, ext)
  {
    var h := g - t;
    forall p, c | p in h && c in h[p]
      ensures c in h
    {
      assert c in g[p];
    }
    assert forall x :: x in Externals(g, ext) ==> x in Reachable(g, ext);
    ReachableKept(g, h, ext);
    assert Externals(h, ext) + Having(col - t, Purple) == Externals(h, ext);
  }

  lemma SweptExact<N>(g: Graph<N>, h: Graph<N>, L: set<N>, cnt0: Counts<N>, cnt: Counts<N>, ext: multiset<N>, t: set<N>)
    requires Exact(g, cnt0, ext) && h == g - t && h.Keys == L == g.Keys - t && L == Reachable(g, ext)
    requires cnt.Keys == g.Keys && forall x :: x in g ==> cnt[x] == ext[x] + InEdges(g, L, x)
    requires GarbageClosed(g, ext)
    ensures Exact(h, cnt - t, ext)
  {
    assert forall x :: x in Externals(g, ext) ==> x in L;
    forall p, c | p in h && c in h[p]
      ensures c in h
    {
      assert c in g[p];
    }
    forall x | x in h
      ensures cnt[x] == ext[x] + InEdges(h, h.Keys, x) && cnt[x] > 0
    {
      InEdgesAgree(g, h, L, x);
      InEdgesIgnore(g, L, g.Keys, x);
    }
  }

  // ---- inputs on which the assumptions fail ----

  /** A sound heap in which a garbage cycle, 0, refers to a link in use, 1: it is not closed. */
  lemma GarbageNotAlwaysClosed()
    ensures var g := map[0 := [0, 1], 1 := []];
            && Sound<int>(g, map[0 := Purple, 1 := Black], map[0 := 1, 1 := 2], map[0 := true, 1 := false], {0}, multiset{1})
            && Reachable<int>(g, multiset{1}) == {1} && !GarbageClosed<int>(g, multiset{1})
  {
    hide Sound, Reach, Exact, Covered, InEdges;
    var g, ext := map[0 := [0, 1], 1 := []], multiset{1};
    ReachLeast<int>(g, Externals<int>(g, ext), {1});
    assert 1 in Externals<int>(g, ext) && 1 in g[0];
    TwoLinks(g, map[0 := Purple, 1 := Black], map[0 := 1, 1 := 2], map[0 := true, 1 := false], {0}, ext);
  }

  /** A sound heap in which letting the handle to link 0 go, as assigning to it does first, frees link 0 with
      the handle to link 1 in its contents that was to be assigned. */
  lemma AssignmentFreesHolder()
    ensures var g := map[0 := [1], 1 := []];
            && Sound<int>(g, map[0 := Black, 1 := Black], map[0 := 1, 1 := 1], map[0 := false, 1 := false], {}, multiset{0})
            && 0 in Reachable<int>(g, multiset{0}) && 0 in Orphans<int>(g, multiset{0} - multiset{0})
  {
    hide Sound, Reach, Exact, Covered, InEdges, OrphansFrom;
    var g, ext := map[0 := [1], 1 := []], multiset{0};
    assert 0 in Externals<int>(g, ext) && 1 in g[0];
    TwoLinks(g, map[0 := Black, 1 := Black], map[0 := 1, 1 := 1], map[0 := false, 1 := false], {}, ext);
    assert HeldOnlyBy<int>(g, ext - multiset{0}, Orphans(g, ext - multiset{0}), 0);
  }

  /** A heap of two links, 0 referring to 1, that is sound. */
  lemma TwoLinks(g: Graph<int>, col: Colours<int>, cnt: Counts<int>, buf: map<int, bool>, roots: set<int>, ext: multiset<int>)
    requires g.Keys == cnt.Keys == {0, 1} && WellFormed(g) && Flagged(g, col, buf, roots)
    requires forall x :: x in g ==> cnt[x] == ext[x] + multiset(g[0])[x] + multiset(g[1])[x] && cnt[x] > 0
    requires (forall x :: x in ext ==> x in g) && (ext[0] > 0 || col[0] == Purple) && 1 in g[0]
    ensures Sound(g, col, cnt, buf, roots, ext)
  {
    hide Reach, InEdges;
    forall x | x in g
      ensures cnt[x] == ext[x] + InEdges(g, g.Keys, x) && cnt[x] > 0
    {
      TwoInEdges(g, x);
    }
    assert forall x :: x in ext ==> x in g;
    TwoCovered(g, col, ext);
  }

  lemma TwoInEdges(g: Graph<int>, x: int)
    requires g.Keys == {0, 1}
    ensures InEdges(g, g.Keys, x) == multiset(g[0])[x] + multiset(g[1])[x]
  {
    InEdgesSplit(g, {0, 1}, 0, x);
    assert {0, 1} - {0} == {1};
    InEdgesSplit(g, {1}, 1, x);
    assert {1} - {1} == {};
  }

  lemma TwoCovered(g: Graph<int>, col: Colours<int>, ext: multiset<int>)
    requires WellFormed(g) && g.Keys == col.Keys == {0, 1} && (ext[0] > 0 || col[0] == Purple) && 1 in g[0]
    ensures Covered(g, col, ext)
  {
    var R := Reach(g, Externals(g, ext) + Having(col, Purple));
    assert 0 in R && 1 in R;
  }
}
