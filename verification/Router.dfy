/** The router: an ordered multimap from selector to target, kept up by `filter_equals` and the disposal of
    its results, against the linear filter that it replaces. */
module Router {
  import opened Sequences

  /** One registration: a selector and the target node made for it. */
  datatype Route = Route(selector: int, target: nat)

  /** What has been asked of the router so far. */
  datatype Request = Register(route: Route) | Dispose(target: nat)

  // ---- the linear filter ----

  /** The registrations still live after a history, in order of registration. */
  function Live(history: seq<Request>): seq<Route> {
    if history == [] then [] else After(Live(history[..|history| - 1]), history[|history| - 1])
  }

  function After(live: seq<Route>, q: Request): seq<Route> {
    if q.Register? then live + [q.route] else Without(live, q.target)
  }

  function Without(rs: seq<Route>, t: nat): (r: seq<Route>)
    ensures forall x :: x in r <==> x in rs && x.target != t
  {
    if rs == [] then []
    else if rs[0].target == t then Without(rs[1..], t)
    else [rs[0]] + Without(rs[1..], t)
  }

  /** The targets of the routes with selector `sel`, in order. */
  function Matching(rs: seq<Route>, sel: int): seq<nat> {
    if rs == [] then []
    else if rs[0].selector == sel then [rs[0].target] + Matching(rs[1..], sel)
    else Matching(rs[1..], sel)
  }

  lemma {:induction false} MatchingAppend(rs: seq<Route>, ss: seq<Route>, sel: int)
    ensures Matching(rs + ss, sel) == Matching(rs, sel) + Matching(ss, sel)
  {
    if rs == [] {
      assert rs + ss == ss && [] + Matching(ss, sel) == Matching(ss, sel);
    } else {
      MatchingAppend(rs[1..], ss, sel);
      assert (rs + ss)[1..] == rs[1..] + ss;
      var head := [rs[0].target];
      assert head + (Matching(rs[1..], sel) + Matching(ss, sel)) == head + Matching(rs[1..], sel) + Matching(ss, sel);
    }
  }

  /** The list of targets with `t` left out. */
  function Dropped(ts: seq<nat>, t: nat): seq<nat> {
    if ts == [] then [] else if ts[0] == t then Dropped(ts[1..], t) else [ts[0]] + Dropped(ts[1..], t)
  }

  lemma {:induction false} MatchingWithout(rs: seq<Route>, t: nat, sel: int)
    ensures Matching(Without(rs, t), sel) == Dropped(Matching(rs, sel), t)
  {
    if rs != [] {
      MatchingWithout(rs[1..], t, sel);
      if rs[0].selector == sel {
        assert ([rs[0].target] + Matching(rs[1..], sel))[1..] == Matching(rs[1..], sel);
      }
    }
  }

  // ---- the linear filter, spelt out ----

  /** `ks` are the positions of the routes to other targets. */
  ghost predicate Elsewhere(rs: seq<Route>, t: nat, ks: seq<nat>) {
    forall i :: 0 <= i < |rs| ==> (i in ks <==> rs[i].target != t)
  }

  lemma {:induction false} WithoutPicks(rs: seq<Route>, t: nat) returns (ks: seq<nat>)
    ensures Picks(rs, ks, Without(rs, t)) && Elsewhere(rs, t, ks)
  {
    if rs == [] {
      ks := [];
    } else {
      hide Picks, Elsewhere;
      var ls := WithoutPicks(rs[1..], t);
      ks := if rs[0].target != t then [0] + Later(ls) else Later(ls);
      PicksFirst(rs, ls, Without(rs[1..], t));
      ElsewhereFirst(rs, t, ls);
    }
  }

  lemma ElsewhereFirst(rs: seq<Route>, t: nat, ls: seq<nat>)
    requires rs != [] && Elsewhere(rs[1..], t, ls)
    ensures Elsewhere(rs, t, if rs[0].target != t then [0] + Later(ls) else Later(ls))
  {
    forall i: nat | i < |rs|
      ensures i in (if rs[0].target != t then [0] + Later(ls) else Later(ls)) <==> rs[i].target != t
    {
      LaterMember(ls, i);
      if i > 0 {
        assert rs[i] == rs[1..][i - 1];
      }
    }
  }

  /** `ks` are the positions of the routes with selector `sel`, in order. */
  ghost predicate Chosen(rs: seq<Route>, sel: int, ks: seq<nat>) {
    && (forall i, j :: 0 <= i < j < |ks| ==> ks[i] < ks[j]) && (forall i :: 0 <= i < |ks| ==> ks[i] < |rs|)
    && (forall i :: 0 <= i < |rs| ==> (i in ks <==> rs[i].selector == sel))
  }

  /** `ts` are the targets of the routes with selector `sel`, which stand at the positions `ks`, in order. */
  ghost predicate Served(rs: seq<Route>, sel: int, ks: seq<nat>, ts: seq<nat>) {
    Chosen(rs, sel, ks) && TargetsAt(rs, ks, ts)
  }

  ghost predicate TargetsAt(rs: seq<Route>, ks: seq<nat>, ts: seq<nat>) {
    |ks| == |ts| && forall i :: 0 <= i < |ks| ==> ks[i] < |rs| && ts[i] == rs[ks[i]].target
  }

  lemma TargetsFirst(rs: seq<Route>, ls: seq<nat>, ts: seq<nat>)
    requires rs != [] && TargetsAt(rs[1..], ls, ts)
    ensures TargetsAt(rs, Later(ls), ts) && TargetsAt(rs, [0] + Later(ls), [rs[0].target] + ts)
  {}

  lemma {:induction false} MatchingServed(rs: seq<Route>, sel: int) returns (ks: seq<nat>)
    ensures Served(rs, sel, ks, Matching(rs, sel))
  {
    if rs == [] {
      ks := [];
    } else {
      hide Chosen, TargetsAt;
      var ls := MatchingServed(rs[1..], sel);
      ks := if rs[0].selector == sel then [0] + Later(ls) else Later(ls);
      ChosenFirst(rs, sel, ls);
      TargetsFirst(rs, ls, Matching(rs[1..], sel));
    }
  }

  lemma ChosenFirst(rs: seq<Route>, sel: int, ls: seq<nat>)
    requires rs != [] && Chosen(rs[1..], sel, ls)
    ensures Chosen(rs, sel, if rs[0].selector == sel then [0] + Later(ls) else Later(ls))
  {
    var ks := if rs[0].selector == sel then [0] + Later(ls) else Later(ls);
    forall i: nat | i < |rs|
      ensures i in ks <==> rs[i].selector == sel
    {
      LaterMember(ls, i);
      if i > 0 {
        assert rs[i] == rs[1..][i - 1];
      }
    }
  }

  /** The routes live after a history are those registered and not disposed of since, in order of registration. */
  ghost predicate LiveAt(history: seq<Request>, ks: seq<nat>, live: seq<Route>) {
    && |ks| == |live| && (forall i, j :: 0 <= i < j < |ks| ==> ks[i] < ks[j])
    && (forall i :: 0 <= i < |ks| ==> ks[i] < |history| && history[ks[i]] == Register(live[i]))
    && (forall i :: 0 <= i < |history| ==> (i in ks <==> Stands(history, i)))
  }

  ghost predicate Stands(history: seq<Request>, i: nat)
    requires i < |history|
  {
    history[i].Register? && forall j :: i < j < |history| ==> history[j] != Dispose(history[i].route.target)
  }

  lemma {:induction false} LiveSpelt(history: seq<Request>) returns (ks: seq<nat>)
    ensures LiveAt(history, ks, Live(history))
  {
    if history == [] {
      ks := [];
    } else {
      hide LiveAt, LeftOver, Stands;
      var before, q := history[..|history| - 1], history[|history| - 1];
      var ls := LiveSpelt(before);
      if q.Register? {
        ks := ls + [|before|];
        RegisteredLast(history, ls, Live(before));
      } else {
        ks := DisposedLast(history, ls, Live(before));
      }
    }
  }

  lemma RegisteredLast(history: seq<Request>, ls: seq<nat>, live: seq<Route>)
    requires history != [] && history[|history| - 1].Register? && LiveAt(history[..|history| - 1], ls, live)
    ensures LiveAt(history, ls + [|history| - 1], live + [history[|history| - 1].route])
  {
    var ks, last := ls + [|history| - 1], |history| - 1;
    StandsBefore(history);
    assert Stands(history, last);
    hide Stands;
    forall i: nat | i < |history|
      ensures i in ks <==> Stands(history, i)
    {
      assert i < last ==> (i in ls <==> Stands(history[..last], i));
    }
  }

  lemma DisposedLast(history: seq<Request>, ls: seq<nat>, live: seq<Route>) returns (ks: seq<nat>)
    requires history != [] && history[|history| - 1].Dispose? && live == Live(history[..|history| - 1])
    requires LiveAt(history[..|history| - 1], ls, live)
    ensures LiveAt(history, ks, Live(history))
  {
    hide LiveAt, Stands;
    var ms := WithoutPicks(live, history[|history| - 1].target);
    SameLength(history[..|history| - 1], ls, live);
    ks := seq(|ms|, i requires 0 <= i < |ms| && ms[i] < |ls| => ls[ms[i]]);
    DisposedApart(history, ls, ms, ks);
  }

  lemma SameLength(history: seq<Request>, ls: seq<nat>, live: seq<Route>)
    requires LiveAt(history, ls, live)
    ensures |ls| == |live|
  {}

  lemma StandsBefore(history: seq<Request>)
    requires history != []
    ensures forall i :: 0 <= i < |history| - 1 ==>
              (Stands(history, i) <==> Stands(history[..|history| - 1], i)
                                       && history[|history| - 1] != Dispose(history[i].route.target))
  {
    var before := history[..|history| - 1];
    assert forall i :: 0 <= i < |before| ==> before[i] == history[i];
  }

  lemma DisposedApart(history: seq<Request>, ls: seq<nat>, ms: seq<nat>, ks: seq<nat>)
    requires history != [] && history[|history| - 1].Dispose?
    requires LiveAt(history[..|history| - 1], ls, Live(history[..|history| - 1]))
    requires LeftOver(Live(history[..|history| - 1]), history[|history| - 1].target, ms, Live(history))
    requires |ks| == |ms| && forall i :: 0 <= i < |ks| ==> ms[i] < |ls| && ks[i] == ls[ms[i]]
    ensures LiveAt(history, ks, Live(history))
  {
    hide Live;
    StandsBefore(history);
    forall i: nat | i < |history|
      ensures i in ks <==> Stands(history, i)
    {
      DisposedAt(history, Live(history[..|history| - 1]), ls, ms, ks, Live(history), i);
    }
  }

  /** `after` is what stands in `live` at the positions `ms`: the routes to other targets. */
  ghost predicate LeftOver(live: seq<Route>, target: nat, ms: seq<nat>, after: seq<Route>) {
    Picks(live, ms, after) && Elsewhere(live, target, ms)
  }

  lemma DisposedAt(history: seq<Request>, live: seq<Route>, ls: seq<nat>, ms: seq<nat>, ks: seq<nat>, after: seq<Route>, i: nat)
    requires history != [] && history[|history| - 1].Dispose? && i < |history|
    requires LiveAt(history[..|history| - 1], ls, live) && LeftOver(live, history[|history| - 1].target, ms, after)
    requires |ks| == |ms| && forall k :: 0 <= k < |ks| ==> ms[k] < |ls| && ks[k] == ls[ms[k]]
    requires i < |history| - 1 ==>
               (Stands(history, i) <==> Stands(history[..|history| - 1], i)
                                        && history[|history| - 1] != Dispose(history[i].route.target))
    ensures i in ks <==> Stands(history, i)
  {
    hide Stands;
    if i < |history| - 1 && Stands(history, i) {
      var j :| 0 <= j < |ls| && ls[j] == i;
      assert j in ms;
      var k :| 0 <= k < |ms| && ms[k] == j;
      assert ks[k] == i;
    }
    if i in ks {
      var k :| 0 <= k < |ks| && ks[k] == i;
      assert ms[k] in ms && ls[ms[k]] in ls;
    }
    LastDoesNotStand(history);
  }

  lemma LastDoesNotStand(history: seq<Request>)
    requires history != [] && history[|history| - 1].Dispose?
    ensures !Stands(history, |history| - 1)
  {}

  // ---- the multimap ----

  /** The entries of a `std::multimap` stand in order of their keys. */
  ghost predicate Sorted(table: seq<Route>) {
    forall i, j :: 0 <= i < j < |table| ==> table[i].selector <= table[j].selector
  }

  /** `lower_bound`: the first entry whose key is not below `sel`. */
  function LowerBound(table: seq<Route>, sel: int): (i: nat)
    ensures i <= |table| && (forall k :: 0 <= k < i ==> table[k].selector < sel)
    ensures i < |table| ==> table[i].selector >= sel
  {
    if table == [] || table[0].selector >= sel then 0
    else
      var i := LowerBound(table[1..], sel);
      assert forall k :: 0 < k < i + 1 ==> table[k] == table[1..][k - 1];
      i + 1
  }

  /** `insert`: behind every entry with the same key. */
  function Insert(table: seq<Route>, r: Route): (t: seq<Route>) {
    if table == [] || table[0].selector > r.selector then [r] + table
    else [table[0]] + Insert(table[1..], r)
  }

  lemma {:induction false} InsertMember(table: seq<Route>, r: Route, x: Route)
    ensures x in Insert(table, r) <==> x in table || x == r
  {
    if table != [] && table[0].selector <= r.selector {
      InsertMember(table[1..], r, x);
    }
  }

  lemma {:induction false} InsertSorted(table: seq<Route>, r: Route)
    requires Sorted(table)
    ensures Sorted(Insert(table, r))
  {
    if table != [] && table[0].selector <= r.selector {
      InsertSorted(table[1..], r);
      var rest := Insert(table[1..], r);
      forall j | 0 <= j < |rest|
        ensures table[0].selector <= rest[j].selector
      {
        InsertMember(table[1..], r, rest[j]);
        if rest[j] != r {
          assert rest[j] in table[1..];
          var k :| 0 <= k < |table[1..]| && table[1..][k] == rest[j];
          assert table[k + 1] == rest[j];
        }
      }
    }
  }

  lemma {:induction false} InsertMatching(table: seq<Route>, r: Route, sel: int)
    requires Sorted(table)
    ensures Matching(Insert(table, r), sel) == Matching(table, sel) + if r.selector == sel then [r.target] else []
  {
    if table == [] {
      assert [r][1..] == [];
    } else if table[0].selector > r.selector {
      assert ([r] + table)[1..] == table;
      if r.selector == sel {
        NoneBelow(table, sel);
      }
    } else {
      InsertMatching(table[1..], r, sel);
      assert ([table[0]] + Insert(table[1..], r))[1..] == Insert(table[1..], r);
    }
  }

  lemma {:induction false} NoneBelow(table: seq<Route>, sel: int)
    requires forall i :: 0 <= i < |table| ==> table[i].selector != sel || (Sorted(table) && table[0].selector > sel)
    ensures Matching(table, sel) == []
  {
    if table != [] {
      assert table[0].selector != sel;
      NoneBelow(table[1..], sel);
    }
  }

  /** `erase` of the entry that belongs to target `t`. */
  function Erase(table: seq<Route>, t: nat): (r: seq<Route>)
    ensures |r| <= |table|
  {
    if table == [] then [] else if table[0].target == t then table[1..] else [table[0]] + Erase(table[1..], t)
  }

  /** No two entries belong to the same target. */
  ghost predicate OwnTargets(table: seq<Route>) {
    forall i, j :: 0 <= i < j < |table| ==> table[i].target != table[j].target
  }

  lemma {:induction false} WithoutAbsent(table: seq<Route>, t: nat)
    requires forall r :: r in table ==> r.target != t
    ensures Without(table, t) == table
  {
    if table != [] {
      assert table[0] in table;
      WithoutAbsent(table[1..], t);
    }
  }

  /** Erasing an entry removes that registration and no other. */
  lemma {:induction false} EraseIsWithout(table: seq<Route>, t: nat)
    requires OwnTargets(table)
    ensures Erase(table, t) == Without(table, t)
  {
    if table != [] {
      if table[0].target == t {
        forall r | r in table[1..]
          ensures r.target != t
        {
          var k :| 0 <= k < |table[1..]| && table[1..][k] == r;
          assert table[k + 1] == r;
        }
        WithoutAbsent(table[1..], t);
      } else {
        EraseIsWithout(table[1..], t);
      }
    }
  }

  /** Whatever holds between the head and every later entry holds between it and every entry kept. */
  lemma KeptLater(table: seq<Route>, t: nat, j: nat) returns (k: nat)
    requires table != [] && j < |Without(table[1..], t)|
    ensures 0 < k < |table| && table[k] == Without(table[1..], t)[j]
  {
    var r := Without(table[1..], t)[j];
    assert r in Without(table[1..], t);
    var i :| 0 <= i < |table[1..]| && table[1..][i] == r;
    k := i + 1;
  }

  lemma {:induction false} WithoutSorted(table: seq<Route>, t: nat)
    requires Sorted(table)
    ensures Sorted(Without(table, t))
  {
    if table != [] {
      WithoutSorted(table[1..], t);
      forall j | 0 <= j < |Without(table[1..], t)|
        ensures table[0].selector <= Without(table[1..], t)[j].selector
      {
        var k := KeptLater(table, t, j);
      }
    }
  }

  lemma {:induction false} WithoutOwnTargets(table: seq<Route>, t: nat)
    requires OwnTargets(table)
    ensures OwnTargets(Without(table, t))
  {
    if table != [] {
      WithoutOwnTargets(table[1..], t);
      forall j | 0 <= j < |Without(table[1..], t)|
        ensures table[0].target != Without(table[1..], t)[j].target
      {
        var k := KeptLater(table, t, j);
      }
    }
  }

  lemma {:induction false} InsertOwnTargets(table: seq<Route>, r: Route)
    requires OwnTargets(table) && forall x :: x in table ==> x.target != r.target
    ensures OwnTargets(Insert(table, r))
  {
    if table != [] && table[0].selector <= r.selector {
      InsertOwnTargets(table[1..], r);
      var rest := Insert(table[1..], r);
      forall j | 0 <= j < |rest|
        ensures table[0].target != rest[j].target
      {
        InsertMember(table[1..], r, rest[j]);
        if rest[j] != r {
          var k :| 0 <= k < |table[1..]| && table[1..][k] == rest[j];
          assert table[k + 1] == rest[j];
        } else {
          assert table[0] in table;
        }
      }
    } else {
      assert forall i :: 0 <= i < |table| ==> table[i] in table;
    }
  }

  // ---- the router ----

  class RoutingTable {
    var table: seq<Route>
    ghost var history: seq<Request>

    ghost predicate Valid()
      reads this
    {
      && Sorted(table) && OwnTargets(table)
      && (forall r :: r in table <==> r in Live(history))
      && (forall sel :: Matching(table, sel) == Matching(Live(history), sel))
    }

    constructor ()
      ensures Valid() && history == []
    {
      table, history := [], [];
    }

    /** `filter_equals`, for a target node made for this registration alone. */
    method FilterEquals(sel: int, target: nat)
      requires Valid() && forall r :: r in Live(history) ==> r.target != target
      modifies this
      ensures Valid() && history == old(history) + [Register(Route(sel, target))]
      ensures forall r :: r in table <==> r in old(table) || r == Route(sel, target)
      ensures Live(history) == Live(old(history)) + [Route(sel, target)]
    {
      var r := Route(sel, target);
      LiveAppend(history, Register(r));
      InsertSorted(table, r);
      InsertOwnTargets(table, r);
      forall s
        ensures Matching(Insert(table, r), s) == Matching(Live(history) + [r], s)
      {
        InsertMatching(table, r, s);
        MatchingAppend(Live(history), [r], s);
        assert [r][1..] == [];
      }
      forall x
        ensures x in Insert(table, r) <==> x in Live(history) + [r]
      {
        InsertMember(table, r, x);
      }
      table, history := Insert(table, r), history + [Register(r)];
    }

    /** The cleanup of a registration, once its deferred action runs. */
    method Cleanup(target: nat)
      requires Valid()
      modifies this
      ensures Valid() && history == old(history) + [Dispose(target)]
      ensures forall r :: r in table <==> r in old(table) && r.target != target
    {
      LiveAppend(history, Dispose(target));
      EraseIsWithout(table, target);
      WithoutSorted(table, target);
      WithoutOwnTargets(table, target);
      forall s
        ensures Matching(Without(table, target), s) == Matching(Without(Live(history), target), s)
      {
        MatchingWithout(table, target, s);
        MatchingWithout(Live(history), target, s);
      }
      table, history := Erase(table, target), history + [Dispose(target)];
    }

    /** `router_handler::handle`: the targets that an event with selector `sel` is sent to, in order, are
        those a linear filter over the live registrations picks, in order of registration. */
    method Handle(sel: int) returns (targets: seq<nat>)
      requires Valid()
      ensures targets == Matching(Live(history), sel)
      ensures exists ks :: Served(Live(history), sel, ks, targets)
    {
      hide Matching, Live, OwnTargets;
      targets := [];
      var it := LowerBound(table, sel);
      SkipBelow(table, it, sel);
      while it < |table| && table[it].selector == sel
        invariant it <= |table|
        invariant targets + Matching(table[it..], sel) == Matching(table, sel)
        invariant it < |table| ==> table[it].selector >= sel
        decreases |table| - it
      {
        NextMatch(table, it, sel, targets);
        targets := targets + [table[it].target];
        it := it + 1;
      }
      NoMoreMatches(table, it, sel);
      assert targets + [] == targets;
      ghost var ks := MatchingServed(Live(history), sel);
    }
  }

  lemma LiveAppend(history: seq<Request>, q: Request)
    ensures Live(history + [q]) == After(Live(history), q)
  {
    assert (history + [q])[..|history|] == history;
  }

  lemma {:induction false} SkipBelow(table: seq<Route>, i: nat, sel: int)
    requires i <= |table| && forall k :: 0 <= k < i ==> table[k].selector < sel
    ensures Matching(table, sel) == Matching(table[i..], sel)
  {
    if i > 0 {
      assert table[0].selector < sel;
      SkipBelow(table[1..], i - 1, sel);
      assert table[1..][i - 1..] == table[i..];
    } else {
      assert table[0..] == table;
    }
  }

  lemma NextMatch(table: seq<Route>, i: nat, sel: int, targets: seq<nat>)
    requires i < |table| && table[i].selector == sel
    ensures targets + Matching(table[i..], sel) == targets + [table[i].target] + Matching(table[i + 1..], sel)
  {
    assert table[i..][1..] == table[i + 1..];
  }

  lemma NoMoreMatches(table: seq<Route>, i: nat, sel: int)
    requires Sorted(table) && i <= |table| && (i < |table| ==> table[i].selector > sel)
    ensures Matching(table[i..], sel) == []
  {
    PastEnd(table[i..], sel);
  }

  lemma {:induction false} PastEnd(table: seq<Route>, sel: int)
    requires Sorted(table) && (table != [] ==> table[0].selector > sel)
    ensures Matching(table, sel) == []
  {
    if table != [] {
      PastEnd(table[1..], sel);
    }
  }
}
