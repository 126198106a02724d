/** The reasoning behind trial deletion, on snapshots: `col` and `cnt` give the colour and the count of
    every node of `g`, `ext` how many handles outside the heap refer to a node, and `pending` the edges
    that the recursive pass has accounted for but not yet walked. Each recursive pass has four facts:
    entering a node, descending to a child, returning from it, and leaving the node. */
module TrialDeletion {
  import opened Graphs

  datatype Colour = Black | Grey | White | Purple

  type Colours<N> = map<N, Colour>
  type Counts<N> = map<N, int>

  ghost function Having<N>(col: Colours<N>, c: Colour): set<N> {
    set p | p in col && col[p] == c
  }

  ghost function NotHaving<N>(col: Colours<N>, c: Colour): set<N> {
    set p | p in col && col[p] != c
  }

  /** The pending edges once the first `i` children of a node have been walked. */
  ghost function Rest<N>(pending: multiset<N>, cs: seq<N>, i: nat): multiset<N>
    requires i <= |cs|
  {
    pending + multiset(cs[i..])
  }

  lemma RestEnds<N>(pending: multiset<N>, cs: seq<N>)
    ensures Rest(pending, cs, 0) == pending + multiset(cs)
    ensures Rest(pending, cs, |cs|) == pending
  {
    assert cs[0..] == cs && cs[|cs|..] == [];
  }

  lemma RestNext<N>(pending: multiset<N>, cs: seq<N>, i: nat)
    requires i < |cs|
    ensures Rest(pending, cs, i) == multiset{cs[i]} + Rest(pending, cs, i + 1)
  {
    assert cs[i..] == [cs[i]] + cs[i + 1..];
  }

  // ---- marking ----

  /** A count has lost the edges that leave grey nodes, except those still `pending`. */
  ghost predicate MarkCounts<N>(g: Graph<N>, col: Colours<N>, cnt: Counts<N>, ext: multiset<N>, pending: multiset<N>) {
    && col.Keys == g.Keys == cnt.Keys
    && forall x :: x in g ==> cnt[x] == ext[x] + pending[x] + InEdges(g, NotHaving(col, Grey), x)
  }

  /** From `a` to `b` nodes only turned grey, all inside `C`, and each took its children along,
      except the nodes of `open`, which are still being walked. */
  ghost predicate MarkStep<N>(g: Graph<N>, C: set<N>, open: set<N>, a: Colours<N>, b: Colours<N>) {
    && a.Keys == g.Keys == b.Keys
    && (forall x :: x in g && b[x] != Grey ==> b[x] == a[x])
    && (forall x :: x in g && a[x] == Grey ==> b[x] == Grey)
    && (forall x :: x in g && b[x] == Grey && a[x] != Grey ==> x in C)
    && (forall x, c :: x in g && b[x] == Grey && a[x] != Grey && x !in open && c in g[x] && c in g ==> b[c] == Grey)
  }

  ghost predicate MarkReady<N>(g: Graph<N>, C: set<N>, n: N, col: Colours<N>, cnt: Counts<N>, ext: multiset<N>,
                               pending: multiset<N>) {
    WellFormed(g) && Closed(g, C) && n in g && n in C && MarkCounts(g, col, cnt, ext, pending)
  }

  ghost predicate MarkDone<N>(g: Graph<N>, C: set<N>, n: N, a: Colours<N>, col: Colours<N>, cnt: Counts<N>,
                              ext: multiset<N>, pending: multiset<N>) {
    && MarkCounts(g, col, cnt, ext, pending) && MarkStep(g, C, {}, a, col)
    && n in g && col[n] == Grey
  }

  /** In the loop over the children of `n`, the first `i` of them walked. */
  ghost predicate Marking<N>(g: Graph<N>, C: set<N>, n: N, i: nat, a: Colours<N>, col: Colours<N>, cnt: Counts<N>,
                             ext: multiset<N>, pending: multiset<N>) {
    && WellFormed(g) && Closed(g, C) && n in g && n in C && i <= |g[n]|
    && MarkCounts(g, col, cnt, ext, Rest(pending, g[n], i)) && MarkStep(g, C, {n}, a, col)
    && a[n] != Grey && col[n] == Grey
    && forall k :: 0 <= k < i ==> col[g[n][k]] == Grey
  }

  lemma MarkAlready<N>(g: Graph<N>, C: set<N>, n: N, a: Colours<N>, cnt: Counts<N>, ext: multiset<N>, pending: multiset<N>)
    requires MarkReady(g, C, n, a, cnt, ext, pending) && a[n] == Grey
    ensures MarkDone(g, C, n, a, a, cnt, ext, pending)
  {}

  lemma MarkEnter<N>(g: Graph<N>, C: set<N>, n: N, a: Colours<N>, cnt: Counts<N>, ext: multiset<N>, pending: multiset<N>)
    requires MarkReady(g, C, n, a, cnt, ext, pending) && a[n] != Grey
    ensures Marking(g, C, n, 0, a, a[n := Grey], cnt, ext, pending)
  {
    MarkEnterCounts(g, n, a, cnt, ext, pending);
    hide MarkCounts, Rest;
  }

  lemma MarkEnterCounts<N>(g: Graph<N>, n: N, a: Colours<N>, cnt: Counts<N>, ext: multiset<N>, pending: multiset<N>)
    requires n in g && MarkCounts(g, a, cnt, ext, pending) && a[n] != Grey
    ensures a.Keys == g.Keys && MarkCounts(g, a[n := Grey], cnt, ext, Rest(pending, g[n], 0))
  {
    var S := NotHaving(a[n := Grey], Grey);
    assert NotHaving(a, Grey) == S + {n};
    RestEnds(pending, g[n]);
    InEdgesAdd(g, S, n);
  }

  lemma MarkDescend<N>(g: Graph<N>, C: set<N>, n: N, i: nat, a: Colours<N>, col: Colours<N>, cnt: Counts<N>,
                       ext: multiset<N>, pending: multiset<N>)
    requires Marking(g, C, n, i, a, col, cnt, ext, pending) && i < |g[n]|
    ensures g[n][i] in g && g[n][i] in cnt && g[n][i] in col
    ensures var l := g[n][i]; MarkReady(g, C, l, col, cnt[l := cnt[l] - 1], ext, Rest(pending, g[n], i + 1))
    ensures cnt[g[n][i]] > 0 && NotHaving(col, Grey) < NotHaving(a, Grey)
  {
    RestNext(pending, g[n], i);
    assert n in NotHaving(a, Grey) && n !in NotHaving(col, Grey);
    assert g[n][i] in g[n];
  }

  lemma MarkReturn<N>(g: Graph<N>, C: set<N>, n: N, i: nat, a: Colours<N>, b: Colours<N>, cntB: Counts<N>,
                      c: Colours<N>, cntC: Counts<N>, ext: multiset<N>, pending: multiset<N>)
    requires Marking(g, C, n, i, a, b, cntB, ext, pending) && i < |g[n]|
    requires MarkDone(g, C, g[n][i], b, c, cntC, ext, Rest(pending, g[n], i + 1))
    ensures Marking(g, C, n, i + 1, a, c, cntC, ext, pending)
  {}

  lemma MarkExit<N>(g: Graph<N>, C: set<N>, n: N, a: Colours<N>, col: Colours<N>, cnt: Counts<N>, ext: multiset<N>,
                    pending: multiset<N>)
    requires n in g && Marking(g, C, n, |g[n]|, a, col, cnt, ext, pending)
    ensures MarkDone(g, C, n, a, col, cnt, ext, pending)
  {
    RestEnds(pending, g[n]);
  }

  // ---- scanning ----

  /** A count has the handles and the edges that leave black nodes, except those still `pending`;
      a white node (other than one of `open`) counts nothing. */
  ghost predicate ScanCounts<N>(g: Graph<N>, open: set<N>, col: Colours<N>, cnt: Counts<N>, ext: multiset<N>,
                                pending: multiset<N>) {
    && col.Keys == g.Keys == cnt.Keys
    && (forall x :: x in g ==> col[x] != Purple)
    && (forall x :: x in g ==> cnt[x] + pending[x] == ext[x] + InEdges(g, Having(col, Black), x))
    && (forall x :: x in g && col[x] == White && x !in open ==> cnt[x] == 0)
  }

  /** From `a` to `b` nodes only turned black, all inside `L`, and each took its children along,
      except the nodes of `open`. */
  ghost predicate BlackStep<N>(g: Graph<N>, L: set<N>, open: set<N>, a: Colours<N>, b: Colours<N>) {
    && a.Keys == g.Keys == b.Keys
    && (forall x :: x in g && b[x] != Black ==> b[x] == a[x])
    && (forall x :: x in g && a[x] == Black ==> b[x] == Black)
    && (forall x :: x in g && b[x] == Black && a[x] != Black ==> x in L)
    && (forall x, c :: x in g && b[x] == Black && a[x] != Black && x !in open && c in g[x] && c in g ==> b[c] == Black)
  }

  ghost predicate BlackReady<N>(g: Graph<N>, L: set<N>, n: N, col: Colours<N>, cnt: Counts<N>, ext: multiset<N>,
                                pending: multiset<N>) {
    && WellFormed(g) && Closed(g, L) && n in g && n in L
    && ScanCounts(g, {n}, col, cnt, ext, pending) && col[n] != Black
  }

  ghost predicate BlackDone<N>(g: Graph<N>, L: set<N>, n: N, a: Colours<N>, col: Colours<N>, cnt: Counts<N>,
                               ext: multiset<N>, pending: multiset<N>) {
    ScanCounts(g, {}, col, cnt, ext, pending) && BlackStep(g, L, {}, a, col) && n in g && col[n] == Black
  }

  /** In the loop over the children of `n`, the first `i` of them re-counted. */
  ghost predicate Blackening<N>(g: Graph<N>, L: set<N>, n: N, i: nat, a: Colours<N>, col: Colours<N>, cnt: Counts<N>,
                                ext: multiset<N>, pending: multiset<N>) {
    && WellFormed(g) && Closed(g, L) && n in g && n in L && i <= |g[n]|
    && ScanCounts(g, {}, col, cnt, ext, Rest(pending, g[n], i)) && BlackStep(g, L, {n}, a, col)
    && a[n] != Black && col[n] == Black
    && forall k :: 0 <= k < i ==> col[g[n][k]] == Black
  }

  lemma BlackEnter<N>(g: Graph<N>, L: set<N>, n: N, a: Colours<N>, cnt: Counts<N>, ext: multiset<N>, pending: multiset<N>)
    requires BlackReady(g, L, n, a, cnt, ext, pending)
    ensures Blackening(g, L, n, 0, a, a[n := Black], cnt, ext, pending)
  {
    BlackEnterCounts(g, n, a, cnt, ext, pending);
    BlackEnterStep(g, L, n, a);
  }

  lemma BlackEnterStep<N>(g: Graph<N>, L: set<N>, n: N, a: Colours<N>)
    requires a.Keys == g.Keys && n in g && n in L && a[n] != Black
    ensures BlackStep(g, L, {n}, a, a[n := Black])
  {}

  lemma BlackEnterCounts<N>(g: Graph<N>, n: N, a: Colours<N>, cnt: Counts<N>, ext: multiset<N>, pending: multiset<N>)
    requires WellFormed(g) && n in g && ScanCounts(g, {n}, a, cnt, ext, pending) && a[n] != Black
    ensures ScanCounts(g, {}, a[n := Black], cnt, ext, Rest(pending, g[n], 0))
  {
    BlackEnterEdges(g, n, a);
    RestEnds(pending, g[n]);
    hide InEdges, Having, WellFormed, Rest;
  }

  lemma BlackEnterEdges<N>(g: Graph<N>, n: N, a: Colours<N>)
    requires a.Keys == g.Keys && n in g && a[n] != Black
    ensures forall x :: InEdges(g, Having(a[n := Black], Black), x) == multiset(g[n])[x] + InEdges(g, Having(a, Black), x)
  {
    assert Having(a[n := Black], Black) == Having(a, Black) + {n};
    InEdgesAdd(g, Having(a, Black), n);
  }

  lemma BlackDescend<N>(g: Graph<N>, L: set<N>, n: N, i: nat, a: Colours<N>, col: Colours<N>, cnt: Counts<N>,
                        ext: multiset<N>, pending: multiset<N>)
    requires Blackening(g, L, n, i, a, col, cnt, ext, pending) && i < |g[n]|
    ensures g[n][i] in cnt && g[n][i] in col
    ensures var l := g[n][i];
            if col[l] == Black then Blackening(g, L, n, i + 1, a, col, cnt[l := cnt[l] + 1], ext, pending)
            else BlackReady(g, L, l, col, cnt[l := cnt[l] + 1], ext, Rest(pending, g[n], i + 1))
    ensures NotHaving(col, Black) < NotHaving(a, Black)
  {
    RestNext(pending, g[n], i);
    assert n in NotHaving(a, Black) && n !in NotHaving(col, Black);
    assert g[n][i] in g[n];
  }

  lemma BlackReturn<N>(g: Graph<N>, L: set<N>, n: N, i: nat, a: Colours<N>, b: Colours<N>, cntB: Counts<N>,
                       c: Colours<N>, cntC: Counts<N>, ext: multiset<N>, pending: multiset<N>)
    requires Blackening(g, L, n, i, a, b, cntB, ext, pending) && i < |g[n]|
    requires BlackDone(g, L, g[n][i], b, c, cntC, ext, Rest(pending, g[n], i + 1))
    ensures Blackening(g, L, n, i + 1, a, c, cntC, ext, pending)
  {}

  lemma BlackExit<N>(g: Graph<N>, L: set<N>, n: N, a: Colours<N>, col: Colours<N>, cnt: Counts<N>, ext: multiset<N>,
                     pending: multiset<N>)
    requires n in g && Blackening(g, L, n, |g[n]|, a, col, cnt, ext, pending)
    ensures BlackDone(g, L, n, a, col, cnt, ext, pending)
  {
    RestEnds(pending, g[n]);
  }

  /** From `a` to `b` grey nodes turned white or black and white ones black, and no node that stopped
      being grey left a grey child behind, except the nodes of `open`. */
  ghost predicate ScanStep<N>(g: Graph<N>, open: set<N>, a: Colours<N>, b: Colours<N>) {
    && a.Keys == g.Keys == b.Keys
    && (forall x :: x in g && b[x] == Grey ==> a[x] == Grey)
    && (forall x :: x in g && a[x] == Black ==> b[x] == Black)
    && (forall x, c :: x in g && b[x] != Grey && a[x] == Grey && x !in open && c in g[x] && c in g ==> b[c] != Grey)
  }

  /** `L` is closed, and holds every black node and every node with a handle from outside. */
  ghost predicate LiveSet<N>(g: Graph<N>, L: set<N>, col: Colours<N>, ext: multiset<N>) {
    && WellFormed(g) && Closed(g, L) && col.Keys == g.Keys
    && (forall x :: x in g && ext[x] > 0 ==> x in L)
    && (forall x :: x in g && col[x] == Black ==> x in L)
  }

  ghost predicate ScanReady<N>(g: Graph<N>, L: set<N>, n: N, col: Colours<N>, cnt: Counts<N>, ext: multiset<N>) {
    n in g && LiveSet(g, L, col, ext) && ScanCounts(g, {}, col, cnt, ext, multiset{})
  }

  ghost predicate ScanDone<N>(g: Graph<N>, L: set<N>, n: N, a: Colours<N>, col: Colours<N>, cnt: Counts<N>, ext: multiset<N>) {
    ScanReady(g, L, n, col, cnt, ext) && ScanStep(g, {}, a, col) && col[n] != Grey
  }

  /** In the loop over the children of the dead `n`, the first `i` of them scanned. */
  ghost predicate Scanning<N>(g: Graph<N>, L: set<N>, n: N, i: nat, a: Colours<N>, col: Colours<N>, cnt: Counts<N>,
                              ext: multiset<N>) {
    && ScanReady(g, L, n, col, cnt, ext) && ScanStep(g, {n}, a, col)
    && a[n] == Grey && col[n] != Grey && i <= |g[n]|
    && forall k :: 0 <= k < i ==> col[g[n][k]] != Grey
  }

  lemma ScanAlready<N>(g: Graph<N>, L: set<N>, n: N, a: Colours<N>, cnt: Counts<N>, ext: multiset<N>)
    requires ScanReady(g, L, n, a, cnt, ext) && a[n] != Grey
    ensures ScanDone(g, L, n, a, a, cnt, ext)
  {}

  /** A node that still counts something has a handle or a black parent, so it is live. */
  lemma ScanLive<N>(g: Graph<N>, L: set<N>, n: N, a: Colours<N>, cnt: Counts<N>, ext: multiset<N>)
    requires ScanReady(g, L, n, a, cnt, ext) && a[n] == Grey && cnt[n] > 0
    ensures BlackReady(g, L, n, a, cnt, ext, multiset{})
  {
    InEdgesPositive(g, Having(a, Black), n);
  }

  lemma ScanBlackened<N>(g: Graph<N>, L: set<N>, n: N, a: Colours<N>, cntA: Counts<N>, col: Colours<N>, cnt: Counts<N>,
                         ext: multiset<N>)
    requires ScanReady(g, L, n, a, cntA, ext) && BlackDone(g, L, n, a, col, cnt, ext, multiset{})
    ensures ScanDone(g, L, n, a, col, cnt, ext)
  {}

  lemma ScanEnter<N>(g: Graph<N>, L: set<N>, n: N, a: Colours<N>, cnt: Counts<N>, ext: multiset<N>)
    requires ScanReady(g, L, n, a, cnt, ext) && a[n] == Grey && cnt[n] <= 0
    ensures Scanning(g, L, n, 0, a, a[n := White], cnt, ext)
  {
    ScanEnterCounts(g, n, a, cnt, ext);
    ScanEnterStep(g, n, a);
    hide ScanCounts, ScanStep;
  }

  lemma ScanEnterCounts<N>(g: Graph<N>, n: N, a: Colours<N>, cnt: Counts<N>, ext: multiset<N>)
    requires ScanCounts(g, {}, a, cnt, ext, multiset{}) && n in g && a[n] == Grey && cnt[n] <= 0
    ensures ScanCounts(g, {}, a[n := White], cnt, ext, multiset{})
  {
    assert Having(a[n := White], Black) == Having(a, Black);
    hide InEdges, Having;
  }

  lemma ScanEnterStep<N>(g: Graph<N>, n: N, a: Colours<N>)
    requires a.Keys == g.Keys && n in g && a[n] == Grey
    ensures ScanStep(g, {n}, a, a[n := White])
  {}

  lemma ScanDescend<N>(g: Graph<N>, L: set<N>, n: N, i: nat, a: Colours<N>, col: Colours<N>, cnt: Counts<N>, ext: multiset<N>)
    requires Scanning(g, L, n, i, a, col, cnt, ext) && i < |g[n]|
    ensures ScanReady(g, L, g[n][i], col, cnt, ext)
    ensures g[n][i] in g && g[n][i] in col && g[n][i] in cnt
    ensures Having(col, Grey) < Having(a, Grey)
  {
    assert n in Having(a, Grey) && n !in Having(col, Grey);
    assert g[n][i] in g[n];
  }

  lemma ScanReturn<N>(g: Graph<N>, L: set<N>, n: N, i: nat, a: Colours<N>, b: Colours<N>, cntB: Counts<N>,
                      c: Colours<N>, cntC: Counts<N>, ext: multiset<N>)
    requires Scanning(g, L, n, i, a, b, cntB, ext) && i < |g[n]|
    requires ScanDone(g, L, g[n][i], b, c, cntC, ext)
    ensures Scanning(g, L, n, i + 1, a, c, cntC, ext)
  {
    hide ScanCounts;
  }

  lemma ScanExit<N>(g: Graph<N>, L: set<N>, n: N, a: Colours<N>, col: Colours<N>, cnt: Counts<N>, ext: multiset<N>)
    requires n in g && Scanning(g, L, n, |g[n]|, a, col, cnt, ext)
    ensures ScanDone(g, L, n, a, col, cnt, ext)
  {
    forall c | c in g[n]
      ensures c in g && col[c] != Grey
    {
      var k :| 0 <= k < |g[n]| && g[n][k] == c;
    }
  }

  // ---- collecting ----

  ghost predicate CollectReady<N>(g: Graph<N>, buf: map<N, bool>, col: Colours<N>) {
    WellFormed(g) && col.Keys == g.Keys == buf.Keys
  }

  ghost function Changed<N>(g: Graph<N>, a: Colours<N>, b: Colours<N>): set<N>
    requires a.Keys == g.Keys == b.Keys
  {
    set x | x in g && b[x] != a[x]
  }

  /** From `a` to `b` only unbuffered white nodes changed, to black; exactly these entered the set, and
      none of them, except the nodes of `open`, left an unbuffered white child behind. */
  ghost predicate CollectStep<N>(g: Graph<N>, buf: map<N, bool>, open: set<N>, a: Colours<N>, b: Colours<N>,
                                 t: set<N>, u: set<N>) {
    && CollectReady(g, buf, a) && CollectReady(g, buf, b)
    && (forall x :: x in g && b[x] != a[x] ==> a[x] == White && b[x] == Black && !buf[x])
    && u + open == t + open + Changed(g, a, b)
    && (forall x, c :: x in g && b[x] != a[x] && x !in open && c in g[x] && c in g ==> b[c] != White || buf[c])
  }

  ghost predicate CollectDone<N>(g: Graph<N>, buf: map<N, bool>, n: N, a: Colours<N>, b: Colours<N>, t: set<N>, u: set<N>) {
    CollectStep(g, buf, {}, a, b, t, u) && n in g && (b[n] != White || buf[n])
  }

  /** In the loop over the children of the collected `n`, the first `i` of them visited. */
  ghost predicate Collecting<N>(g: Graph<N>, buf: map<N, bool>, n: N, i: nat, a: Colours<N>, b: Colours<N>,
                                t: set<N>, u: set<N>) {
    && CollectStep(g, buf, {n}, a, b, t, u) && n in g && a[n] == White && b[n] == Black && i <= |g[n]|
    && forall k :: 0 <= k < i ==> b[g[n][k]] != White || buf[g[n][k]]
  }

  lemma CollectAlready<N>(g: Graph<N>, buf: map<N, bool>, n: N, a: Colours<N>, t: set<N>)
    requires CollectReady(g, buf, a) && n in g && (a[n] != White || buf[n])
    ensures CollectDone(g, buf, n, a, a, t, t)
  {}

  lemma CollectEnter<N>(g: Graph<N>, buf: map<N, bool>, n: N, a: Colours<N>, t: set<N>)
    requires CollectReady(g, buf, a) && n in g && a[n] == White && !buf[n]
    ensures Collecting(g, buf, n, 0, a, a[n := Black], t, t)
  {}

  lemma CollectDescend<N>(g: Graph<N>, buf: map<N, bool>, n: N, i: nat, a: Colours<N>, b: Colours<N>, t: set<N>, u: set<N>)
    requires Collecting(g, buf, n, i, a, b, t, u) && i < |g[n]|
    ensures CollectReady(g, buf, b) && g[n][i] in g && g[n][i] in b && g[n][i] in buf
    ensures Having(b, White) < Having(a, White)
  {
    assert n in Having(a, White) && n !in Having(b, White);
    assert g[n][i] in g[n];
  }

  lemma CollectReturn<N>(g: Graph<N>, buf: map<N, bool>, n: N, i: nat, a: Colours<N>, b: Colours<N>, c: Colours<N>,
                         t: set<N>, u: set<N>, v: set<N>)
    requires Collecting(g, buf, n, i, a, b, t, u) && i < |g[n]|
    requires CollectDone(g, buf, g[n][i], b, c, u, v)
    ensures Collecting(g, buf, n, i + 1, a, c, t, v)
  {
    assert Changed(g, a, c) == Changed(g, a, b) + Changed(g, b, c);
    assert v == u + Changed(g, b, c);
  }

  lemma CollectExit<N>(g: Graph<N>, buf: map<N, bool>, n: N, a: Colours<N>, b: Colours<N>, t: set<N>, u: set<N>)
    requires n in g && Collecting(g, buf, n, |g[n]|, a, b, t, u)
    ensures CollectDone(g, buf, n, a, b, t, u + {n})
  {
    assert u + {n} + {} == t + {} + Changed(g, a, b);
  }
}
