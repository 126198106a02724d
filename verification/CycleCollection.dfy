/** From the recursive passes to the whole collection: what each loop over the roots keeps, and why the
    three loops together find exactly the dead candidates and restore every other count. */
module CycleCollection {
  import opened Graphs
  import opened TrialDeletion

  /** The nodes with at least one handle outside the heap. */
  ghost function Externals<N>(g: Graph<N>, ext: multiset<N>): set<N> {
    set x | x in g && ext[x] > 0
  }

  /** What trial deletion puts in doubt: everything below a purple node. */
  ghost function Candidates<N>(g: Graph<N>, col: Colours<N>): set<N>
    requires WellFormed(g)
  {
    Reach(g, Having(col, Purple))
  }

  /** What is reachable from an external handle or from a node that is not in doubt. */
  ghost function Live<N>(g: Graph<N>, col: Colours<N>, ext: multiset<N>): set<N>
    requires WellFormed(g)
  {
    Reach(g, Externals(g, ext) + (g.Keys - Candidates(g, col)))
  }

  /** A node is in doubt when a path leads to it from a purple node, and live when one leads to it from a node
      with a handle outside or from one that is not in doubt. */
  lemma CandidatesByPath<N(!new)>(g: Graph<N>, col: Colours<N>, ext: multiset<N>, x: N)
    requires WellFormed(g) && col.Keys == g.Keys
    ensures x in Candidates(g, col) <==> exists p :: Path(g, p, x) && p[0] in g && col[p[0]] == Purple
    ensures x in Live(g, col, ext)
            <==> exists p :: Path(g, p, x) && p[0] in g && (ext[p[0]] > 0 || p[0] !in Candidates(g, col))
  {
    ReachByPath(g, Having(col, Purple), x);
    ReachByPath(g, Externals(g, ext) + (g.Keys - Candidates(g, col)), x);
    assert forall p :: Path(g, p, x) ==> (p[0] in Having(col, Purple) <==> p[0] in g && col[p[0]] == Purple);
    assert forall p :: Path(g, p, x) ==>
             (p[0] in Externals(g, ext) + (g.Keys - Candidates(g, col))
              <==> p[0] in g && (ext[p[0]] > 0 || p[0] !in Candidates(g, col)));
  }

  /** Every count is exact (handles outside plus edges) and positive. */
  ghost predicate Exact<N>(g: Graph<N>, cnt: Counts<N>, ext: multiset<N>) {
    && WellFormed(g) && cnt.Keys == g.Keys
    && (forall x :: x in ext ==> x in g)
    && (forall x :: x in g ==> cnt[x] == ext[x] + InEdges(g, g.Keys, x) && cnt[x] > 0)
  }

  /** The purple nodes are among the roots, which are the buffered nodes. */
  ghost predicate Flagged<N>(g: Graph<N>, col: Colours<N>, buf: map<N, bool>, roots: set<N>) {
    && col.Keys == g.Keys && buf.Keys == g.Keys && roots <= g.Keys
    && (forall x :: x in g ==> col[x] == Black || (col[x] == Purple && x in roots))
    && (forall x :: x in g ==> (buf[x] <==> x in roots))
  }

  /** The state between two operations. */
  ghost predicate Consistent<N>(g: Graph<N>, col: Colours<N>, cnt: Counts<N>, buf: map<N, bool>, roots: set<N>,
                                ext: multiset<N>) {
    Exact(g, cnt, ext) && Flagged(g, col, buf, roots)
  }

  lemma ReachMonotone<N>(g: Graph<N>, S: set<N>, T: set<N>)
    requires WellFormed(g) && S <= T
    ensures Reach(g, S) <= Reach(g, T)
  {
    ReachLeast(g, S, Reach(g, T));
  }

  // ---- mark_roots ----

  /** The roots visited so far: those `kept` have turned grey, the others are unbuffered. */
  ghost predicate RootColours<N>(g: Graph<N>, a: Colours<N>, kept: set<N>, todo: set<N>, col: Colours<N>, buf: map<N, bool>)
    requires WellFormed(g)
  {
    && MarkStep(g, g.Keys, {}, a, col) && Having(col, Grey) <= Reach(g, kept)
    && buf.Keys == g.Keys && kept <= g.Keys && todo <= g.Keys && kept !! todo
    && (forall x :: x in g ==> a[x] == Black || a[x] == Purple)
    && (forall x :: x in kept ==> a[x] == Purple && col[x] == Grey)
    && (forall x :: x in g && a[x] == Purple && col[x] != Grey ==> x in todo)
    && (forall x :: x in g ==> (buf[x] <==> x in kept || x in todo))
  }

  ghost predicate RootsMarked<N>(g: Graph<N>, a: Colours<N>, ext: multiset<N>, kept: set<N>, todo: set<N>,
                                 col: Colours<N>, cnt: Counts<N>, buf: map<N, bool>) {
    WellFormed(g) && MarkCounts(g, col, cnt, ext, multiset{}) && RootColours(g, a, kept, todo, col, buf)
  }

  ghost predicate PositiveWhereExact<N>(g: Graph<N>, ext: multiset<N>) {
    forall x :: x in g ==> ext[x] + InEdges(g, g.Keys, x) > 0
  }

  lemma RootsMarkedStart<N>(g: Graph<N>, a: Colours<N>, cnt: Counts<N>, buf: map<N, bool>, roots: set<N>, ext: multiset<N>)
    requires Consistent(g, a, cnt, buf, roots, ext)
    ensures RootsMarked(g, a, ext, {}, roots, a, cnt, buf) && PositiveWhereExact(g, ext) && WellFormed(g)
  {
    assert NotHaving(a, Grey) == g.Keys;
    assert Having(a, Grey) == {};
  }

  /** Sources without an edge to `x` contribute nothing. */
  lemma {:induction false} InEdgesIgnore<N>(g: Graph<N>, S: set<N>, T: set<N>, x: N)
    requires S <= T <= g.Keys && forall p :: p in T && p !in S ==> x !in g[p]
    ensures InEdges(g, S, x) == InEdges(g, T, x)
    decreases T
  {
    if S != T {
      var p :| p in T && p !in S;
      InEdgesSplit(g, T, p, x);
      InEdgesIgnore(g, S, T - {p}, x);
    }
  }

  /** A root not yet grey has kept its whole count. */
  lemma RootCount<N>(g: Graph<N>, a: Colours<N>, ext: multiset<N>, kept: set<N>, todo: set<N>, col: Colours<N>,
                     cnt: Counts<N>, buf: map<N, bool>, l: N)
    requires RootsMarked(g, a, ext, kept, todo, col, cnt, buf) && PositiveWhereExact(g, ext)
    requires l in g && col[l] != Grey
    ensures cnt[l] > 0
  {
    InEdgesIgnore(g, NotHaving(col, Grey), g.Keys, l);
  }

  lemma RootVisited<N>(g: Graph<N>, a: Colours<N>, ext: multiset<N>, kept: set<N>, todo: set<N>, col: Colours<N>,
                       cnt: Counts<N>, buf: map<N, bool>, l: N)
    requires RootsMarked(g, a, ext, kept, todo, col, cnt, buf) && PositiveWhereExact(g, ext) && l in todo
    ensures l in g && l in col && l in cnt && l in buf && (col[l] != Grey ==> cnt[l] > 0)
  {
    if col[l] != Grey {
      RootCount(g, a, ext, kept, todo, col, cnt, buf, l);
    }
  }

  lemma RootMark<N>(g: Graph<N>, a: Colours<N>, ext: multiset<N>, kept: set<N>, todo: set<N>, col: Colours<N>,
                    cnt: Counts<N>, buf: map<N, bool>, l: N)
    requires RootsMarked(g, a, ext, kept, todo, col, cnt, buf) && l in todo && col[l] == Purple
    ensures l in g && l in col && MarkReady(g, Reach(g, kept + {l}), l, col, cnt, ext, multiset{})
  {}

  lemma RootMarkedNext<N>(g: Graph<N>, a: Colours<N>, ext: multiset<N>, kept: set<N>, todo: set<N>, b: Colours<N>,
                          cntB: Counts<N>, buf: map<N, bool>, l: N, c: Colours<N>, cntC: Counts<N>)
    requires RootsMarked(g, a, ext, kept, todo, b, cntB, buf) && l in todo && b[l] == Purple
    requires MarkDone(g, Reach(g, kept + {l}), l, b, c, cntC, ext, multiset{})
    ensures RootsMarked(g, a, ext, kept + {l}, todo - {l}, c, cntC, buf)
  {
    assert WellFormed(g);
    RootColoursNext(g, a, kept, todo, b, buf, l, c);
  }

  lemma RootColoursNext<N>(g: Graph<N>, a: Colours<N>, kept: set<N>, todo: set<N>, b: Colours<N>, buf: map<N, bool>,
                           l: N, c: Colours<N>)
    requires WellFormed(g) && RootColours(g, a, kept, todo, b, buf) && l in todo && b[l] == Purple
    requires MarkStep(g, Reach(g, kept + {l}), {}, b, c) && c[l] == Grey
    ensures RootColours(g, a, kept + {l}, todo - {l}, c, buf)
  {
    hide MarkStep, Reach, Having, WellFormed;
    MarkedStays(g, Reach(g, kept + {l}), b, c);
    MarkedStays(g, g.Keys, a, b);
    RootMarkedStep(g, a, kept, b, c, l);
  }

  lemma MarkedStays<N>(g: Graph<N>, C: set<N>, b: Colours<N>, c: Colours<N>)
    requires MarkStep(g, C, {}, b, c)
    ensures c.Keys == g.Keys == b.Keys
    ensures forall x :: x in g ==> (b[x] == Grey ==> c[x] == Grey) && (c[x] == Grey || c[x] == b[x])
  {}

  lemma RootMarkedStep<N>(g: Graph<N>, a: Colours<N>, kept: set<N>, b: Colours<N>, c: Colours<N>, l: N)
    requires WellFormed(g) && kept + {l} <= g.Keys
    requires MarkStep(g, g.Keys, {}, a, b) && MarkStep(g, Reach(g, kept + {l}), {}, b, c)
    requires Having(b, Grey) <= Reach(g, kept)
    ensures MarkStep(g, g.Keys, {}, a, c) && Having(c, Grey) <= Reach(g, kept + {l})
  {
    ReachMonotone(g, kept, kept + {l});
  }

  lemma RootDropped<N>(g: Graph<N>, a: Colours<N>, ext: multiset<N>, kept: set<N>, todo: set<N>, col: Colours<N>,
                       cnt: Counts<N>, buf: map<N, bool>, l: N)
    requires RootsMarked(g, a, ext, kept, todo, col, cnt, buf) && l in todo && col[l] != Purple
    ensures RootsMarked(g, a, ext, kept, todo - {l}, col, cnt, buf[l := false])
  {
    hide MarkCounts;
  }

  /** Once every root has been visited, the grey nodes are the candidates, all below the kept roots. */
  lemma AllMarked<N>(g: Graph<N>, a: Colours<N>, ext: multiset<N>, kept: set<N>, col: Colours<N>, cnt: Counts<N>,
                     buf: map<N, bool>)
    requires RootsMarked(g, a, ext, kept, {}, col, cnt, buf)
    ensures Having(col, Grey) == Candidates(g, a) == Reach(g, kept)
    ensures Having(col, Black) == NotHaving(col, Grey) == g.Keys - Candidates(g, a)
    ensures forall x :: x in g ==> col[x] == Black || col[x] == Grey
  {
    hide MarkCounts;
    ReachLeast(g, Having(a, Purple), Having(col, Grey));
    ReachMonotone(g, kept, Having(a, Purple));
  }

  // ---- scan_roots ----

  ghost predicate RootsScanned<N>(g: Graph<N>, L: set<N>, a: Colours<N>, ext: multiset<N>, kept: set<N>, todo: set<N>,
                                  col: Colours<N>, cnt: Counts<N>) {
    && LiveSet(g, L, col, ext) && ScanCounts(g, {}, col, cnt, ext, multiset{}) && ScanStep(g, {}, a, col)
    && kept <= g.Keys && todo <= kept
    && (forall x :: x in g ==> a[x] == Black || a[x] == Grey)
    && (forall x :: x in kept && x !in todo ==> col[x] != Grey)
  }

  lemma RootsScannedStart<N>(g: Graph<N>, a0: Colours<N>, ext: multiset<N>, kept: set<N>, a: Colours<N>, cnt: Counts<N>,
                             buf: map<N, bool>)
    requires RootsMarked(g, a0, ext, kept, {}, a, cnt, buf)
    ensures RootsScanned(g, Live(g, a0, ext), a, ext, kept, kept, a, cnt)
  {
    AllMarked(g, a0, ext, kept, a, cnt, buf);
    LiveSetStart(g, Live(g, a0, ext), g.Keys - Candidates(g, a0), a, ext);
    ScanCountsStart(g, a, cnt, ext);
    hide ScanCounts, MarkCounts, Live;
  }

  lemma ScanCountsStart<N>(g: Graph<N>, a: Colours<N>, cnt: Counts<N>, ext: multiset<N>)
    requires MarkCounts(g, a, cnt, ext, multiset{}) && Having(a, Black) == NotHaving(a, Grey)
    requires forall x :: x in g ==> a[x] == Black || a[x] == Grey
    ensures ScanCounts(g, {}, a, cnt, ext, multiset{})
  {}

  lemma LiveSetStart<N>(g: Graph<N>, L: set<N>, B: set<N>, a: Colours<N>, ext: multiset<N>)
    requires WellFormed(g) && a.Keys == g.Keys && Having(a, Black) == B && L == Reach(g, Externals(g, ext) + B)
    ensures LiveSet(g, L, a, ext)
  {
    forall x | x in g && (ext[x] > 0 || a[x] == Black)
      ensures x in L
    {
      assert x in Externals(g, ext) + Having(a, Black);
    }
  }

  lemma RootScan<N>(g: Graph<N>, L: set<N>, a: Colours<N>, ext: multiset<N>, kept: set<N>, todo: set<N>,
                    col: Colours<N>, cnt: Counts<N>, l: N)
    requires RootsScanned(g, L, a, ext, kept, todo, col, cnt) && l in todo
    ensures l in g && l in col && l in cnt && ScanReady(g, L, l, col, cnt, ext)
  {}

  lemma RootsScannedNext<N>(g: Graph<N>, L: set<N>, a: Colours<N>, ext: multiset<N>, kept: set<N>, todo: set<N>,
                            b: Colours<N>, cntB: Counts<N>, l: N, c: Colours<N>, cntC: Counts<N>)
    requires RootsScanned(g, L, a, ext, kept, todo, b, cntB) && ScanDone(g, L, l, b, c, cntC, ext)
    ensures RootsScanned(g, L, a, ext, kept, todo - {l}, c, cntC)
  {
    assert LiveSet(g, L, c, ext) && ScanCounts(g, {}, c, cntC, ext, multiset{});
    hide ScanCounts;
  }

  lemma NoGreyLeft<N>(g: Graph<N>, L: set<N>, a: Colours<N>, ext: multiset<N>, kept: set<N>, col: Colours<N>, cnt: Counts<N>)
    requires RootsScanned(g, L, a, ext, kept, {}, col, cnt) && Having(a, Grey) == Reach(g, kept)
    ensures Having(col, Grey) == {}
  {
    hide ScanCounts;
    var D := set x | x in Having(a, Grey) && col[x] != Grey;
    assert Closed(g, D);
    ReachLeast(g, kept, D);
    forall x | x in g
      ensures col[x] != Grey
    {
      assert col[x] == Grey ==> x in Having(a, Grey);
    }
  }

  /** After scanning, black is exactly the live set and every count is exact over live sources. */
  lemma BlackIsLive<N>(g: Graph<N>, L: set<N>, S: set<N>, col: Colours<N>, cnt: Counts<N>, ext: multiset<N>)
    requires LiveSet(g, L, col, ext) && ScanCounts(g, {}, col, cnt, ext, multiset{}) && Having(col, Grey) == {}
    requires L == Reach(g, S) && S <= Externals(g, ext) + Having(col, Black)
    ensures Having(col, Black) == L && Having(col, White) == g.Keys - L
    ensures forall x :: x in g ==> cnt[x] == ext[x] + InEdges(g, L, x)
  {
    var B := Having(col, Black);
    forall x | x in g && x !in B
      ensures ext[x] == 0 && col[x] == White && forall p :: p in B ==> x !in g[p]
    {
      assert x !in Having(col, Grey);
      InEdgesPositive(g, B, x);
    }
    assert Closed(g, B);
    ReachLeast(g, S, B);
  }

  // ---- collect_roots ----

  ghost predicate RootsCollected<N>(g: Graph<N>, w: Colours<N>, kept: set<N>, todo: set<N>, col: Colours<N>,
                                    buf: map<N, bool>, t: set<N>) {
    && CollectReady(g, buf, w) && CollectReady(g, buf, col)
    && (forall x :: x in g && col[x] != w[x] ==> w[x] == White && col[x] == Black)
    && t == Changed(g, w, col)
    && (forall x, c :: x in g && col[x] != w[x] && c in g[x] && c in g ==> col[c] != White || buf[c])
    && kept <= g.Keys && todo <= kept
    && (forall x :: x in g ==> (buf[x] <==> x in todo))
    && (forall x :: x in kept && x !in todo ==> col[x] != White)
  }

  lemma RootsCollectedNext<N>(g: Graph<N>, w: Colours<N>, kept: set<N>, todo: set<N>, b: Colours<N>, buf: map<N, bool>,
                              t: set<N>, l: N, c: Colours<N>, u: set<N>)
    requires RootsCollected(g, w, kept, todo, b, buf, t) && l in todo
    requires CollectDone(g, buf[l := false], l, b, c, t, u)
    ensures RootsCollected(g, w, kept, todo - {l}, c, buf[l := false], u)
  {
    assert Changed(g, w, c) == Changed(g, w, b) + Changed(g, b, c);
    assert u == t + Changed(g, b, c);
  }

  /** Once every root has been visited, exactly the white nodes have been collected. */
  lemma AllCollected<N>(g: Graph<N>, w: Colours<N>, kept: set<N>, col: Colours<N>, buf: map<N, bool>, t: set<N>)
    requires RootsCollected(g, w, kept, {}, col, buf, t)
    requires forall x :: x in g ==> w[x] == Black || w[x] == White
    requires Closed(g, Having(w, Black)) && Having(w, White) <= Reach(g, kept)
    ensures t == Having(w, White)
    ensures forall x :: x in g ==> col[x] == Black && !buf[x]
  {
    var D := NotHaving(col, White);
    forall p, c | p in D && p in g && c in g[p]
      ensures c in D
    {
      assert buf[c] <==> c in {};
      assert col[p] == w[p] ==> p in Having(w, Black) && c in Having(w, Black);
    }
    ReachLeast(g, kept, D);
    assert t == Having(w, White);
  }

  lemma RootCollect<N>(g: Graph<N>, w: Colours<N>, kept: set<N>, todo: set<N>, b: Colours<N>, buf: map<N, bool>,
                       t: set<N>, l: N)
    requires RootsCollected(g, w, kept, todo, b, buf, t) && l in todo
    ensures l in g && l in b && l in buf && CollectReady(g, buf[l := false], b)
  {}

  // ---- the whole collection ----

  /** Every count is exact over the sources `S`, and no node is coloured or buffered. */
  ghost predicate Survived<N>(g: Graph<N>, col: Colours<N>, cnt: Counts<N>, buf: map<N, bool>, ext: multiset<N>, S: set<N>) {
    && col.Keys == g.Keys == cnt.Keys && buf.Keys == g.Keys && S <= g.Keys
    && forall x :: x in g ==> cnt[x] == ext[x] + InEdges(g, S, x) && col[x] == Black && !buf[x]
  }

  /** What scanning has established: white is exactly the dead candidates, and the collecting loop may start. */
  ghost predicate Sorted<N>(g: Graph<N>, a: Colours<N>, ext: multiset<N>, kept: set<N>, L: set<N>, w: Colours<N>, cnt: Counts<N>)
  {
    && WellFormed(g) && w.Keys == g.Keys == cnt.Keys && L <= g.Keys
    && Having(w, Black) == L && Having(w, White) == g.Keys - L && Closed(g, L)
    && (forall x :: x in g ==> cnt[x] == ext[x] + InEdges(g, L, x))
    && g.Keys - L == Candidates(g, a) - L && Candidates(g, a) == Reach(g, kept) && L == Live(g, a, ext)
  }

  lemma LiveBounds<N>(g: Graph<N>, a: Colours<N>, ext: multiset<N>)
    requires WellFormed(g) && a.Keys == g.Keys
    ensures Live(g, a, ext) <= g.Keys && g.Keys - Live(g, a, ext) == Candidates(g, a) - Live(g, a, ext)
  {}

  lemma Separated<N>(g: Graph<N>, a: Colours<N>, ext: multiset<N>, kept: set<N>, m: Colours<N>, cntM: Counts<N>,
                     buf: map<N, bool>, L: set<N>, w: Colours<N>, cnt: Counts<N>)
    requires RootsMarked(g, a, ext, kept, {}, m, cntM, buf) && L == Live(g, a, ext)
    requires RootsScanned(g, L, m, ext, kept, {}, w, cnt)
    ensures Sorted(g, a, ext, kept, L, w, cnt)
    ensures RootsCollected(g, w, kept, kept, w, buf, {})
  {
    AllMarked(g, a, ext, kept, m, cntM, buf);
    NoGreyLeft(g, L, m, ext, kept, w, cnt);
    BlackStays(g, L, m, ext, kept, w, cnt);
    SeparatedBlack(g, a, ext, L, w, cnt);
    LiveBounds(g, a, ext);
    SeparatedBuffers(g, a, kept, m, buf, w, L);
    hide ScanCounts, MarkCounts, Live, LiveSet;
  }

  lemma BlackStays<N>(g: Graph<N>, L: set<N>, m: Colours<N>, ext: multiset<N>, kept: set<N>, w: Colours<N>, cnt: Counts<N>)
    requires RootsScanned(g, L, m, ext, kept, {}, w, cnt)
    ensures Having(m, Black) <= Having(w, Black)
  {
    hide ScanCounts, LiveSet;
  }

  lemma SeparatedBlack<N>(g: Graph<N>, a: Colours<N>, ext: multiset<N>, L: set<N>, w: Colours<N>, cnt: Counts<N>)
    requires LiveSet(g, L, w, ext) && ScanCounts(g, {}, w, cnt, ext, multiset{}) && Having(w, Grey) == {}
    requires L == Live(g, a, ext) && g.Keys - Candidates(g, a) <= Having(w, Black)
    ensures Having(w, Black) == L && Having(w, White) == g.Keys - L
    ensures forall x :: x in g ==> cnt[x] == ext[x] + InEdges(g, L, x)
  {
    var S := Externals(g, ext) + (g.Keys - Candidates(g, a));
    hide ScanCounts, LiveSet, Candidates;
    assert S <= Externals(g, ext) + Having(w, Black);
    assert L == Reach(g, S);
    assert WellFormed(g);
    BlackIsLive(g, L, S, w, cnt, ext);
  }

  lemma SeparatedBuffers<N>(g: Graph<N>, a: Colours<N>, kept: set<N>, m: Colours<N>, buf: map<N, bool>, w: Colours<N>, L: set<N>)
    requires WellFormed(g) && RootColours(g, a, kept, {}, m, buf) && w.Keys == g.Keys && Having(w, Black) == L
    requires Having(m, Black) <= L && forall x :: x in kept ==> w[x] != Grey
    ensures RootsCollected(g, w, kept, kept, w, buf, {})
  {
    assert Changed(g, w, w) == {};
  }

  lemma Collected<N>(g: Graph<N>, a: Colours<N>, ext: multiset<N>, kept: set<N>, w: Colours<N>, cnt: Counts<N>,
                     col: Colours<N>, buf: map<N, bool>, t: set<N>, L: set<N>)
    requires Sorted(g, a, ext, kept, L, w, cnt) && RootsCollected(g, w, kept, {}, col, buf, t)
    ensures t == Candidates(g, a) - Live(g, a, ext)
    ensures Survived(g, col, cnt, buf, ext, g.Keys - t)
  {
    hide Live, Candidates;
    forall x | x in g
      ensures w[x] == Black || w[x] == White
    {
      assert x in Having(w, Black) || x in Having(w, White);
    }
    AllCollected(g, w, kept, col, buf, t);
    assert g.Keys - t == L;
  }
}
