/** The prioritized queue of a transaction: entries ordered by rank and then by sequence number,
    re-keyed when ranks have moved, and drained in order while handlers enqueue more. */
module Scheduler {
  type NodeId = nat

  datatype Entry<+A> = Entry(rank: nat, serial: nat, node: NodeId, action: A)

  type Queue<+A> = seq<Entry<A>>

  /** `operator <` on entries. */
  predicate Before<A>(e: Entry<A>, f: Entry<A>) {
    if e.rank == f.rank then e.serial < f.serial else e.rank < f.rank
  }

  /** The queue is a `std::set`: its entries stand in strictly increasing order. */
  ghost predicate Sorted<A>(q: Queue<A>) {
    forall i, j :: 0 <= i < j < |q| ==> Before(q[i], q[j])
  }

  ghost predicate SerialsBelow<A>(q: Queue<A>, bound: nat) {
    forall e :: e in q ==> e.serial < bound
  }

  /** No two entries carry the same sequence number. */
  ghost predicate DistinctSerials<A>(q: Queue<A>) {
    forall i, j :: 0 <= i < j < |q| ==> q[i].serial != q[j].serial
  }

  /** `std::set::insert`. An entry whose key is already present is not inserted. */
  function Insert<A>(q: Queue<A>, e: Entry<A>): (r: Queue<A>)
    ensures |r| <= |q| + 1
  {
    if q == [] || Before(e, q[0]) then [e] + q
    else if !Before(q[0], e) then q
    else [q[0]] + Insert(q[1..], e)
  }

  lemma {:induction false} InsertContents<A>(q: Queue<A>, e: Entry<A>)
    requires forall f :: f in q ==> f.serial != e.serial
    ensures multiset(Insert(q, e)) == multiset(q) + multiset{e}
    ensures forall f :: f in Insert(q, e) <==> f in q || f == e
  {
    if q == [] || Before(e, q[0]) {
      assert multiset([e] + q) == multiset{e} + multiset(q);
    } else {
      assert q[0] in q;
      InsertContents(q[1..], e);
      assert q == [q[0]] + q[1..];
    }
  }

  lemma {:induction false} InsertMember<A>(q: Queue<A>, e: Entry<A>, f: Entry<A>)
    requires f in Insert(q, e)
    ensures f in q || f == e
  {
    if q != [] && !Before(e, q[0]) && Before(q[0], e) && f != q[0] {
      InsertMember(q[1..], e, f);
    }
  }

  lemma {:induction false} InsertSorted<A>(q: Queue<A>, e: Entry<A>)
    requires Sorted(q) && forall f :: f in q ==> f.serial != e.serial
    ensures Sorted(Insert(q, e))
  {
    if q != [] && !Before(e, q[0]) {
      assert q[0] in q && Before(q[0], e);
      var rest := Insert(q[1..], e);
      InsertContents(q[1..], e);
      InsertSorted(q[1..], e);
      forall j | 0 <= j < |rest|
        ensures Before(q[0], rest[j])
      {
        InsertMember(q[1..], e, rest[j]);
        if rest[j] != e {
          var k :| 0 <= k < |q[1..]| && q[1..][k] == rest[j];
        }
      }
    }
  }

  // ---- check_regen ----

  type Ranks = NodeId -> nat

  /** The entry as `check_regen` rebuilds it: same node, action and number, current rank. */
  function Rekey<A>(e: Entry<A>, ranks: Ranks): Entry<A> {
    e.(rank := ranks(e.node))
  }

  function Rekeyed<A>(q: Queue<A>, ranks: Ranks): (r: Queue<A>)
    ensures |r| == |q| && forall i :: 0 <= i < |q| ==> r[i] == Rekey(q[i], ranks)
  {
    seq(|q|, i requires 0 <= i < |q| => Rekey(q[i], ranks))
  }

  /** A sorted queue is determined by its entries. */
  lemma {:induction false} SortedUnique<A>(q: Queue<A>, r: Queue<A>)
    requires Sorted(q) && Sorted(r) && multiset(q) == multiset(r)
    ensures q == r
  {
    if q == [] {
      assert |multiset(r)| == 0;
    } else {
      assert |multiset(r)| == |multiset(q)|;
      SameHead(q, r);
      SameHead(r, q);
      SameTail(q, r);
      SortedUnique(q[1..], r[1..]);
    }
  }

  lemma SameTail<A>(q: Queue<A>, r: Queue<A>)
    requires multiset(q) == multiset(r) && q != [] && r != [] && q[0] == r[0]
    ensures multiset(q[1..]) == multiset(r[1..])
  {
    assert q == [q[0]] + q[1..] && r == [r[0]] + r[1..];
    assert multiset(q) == multiset{q[0]} + multiset(q[1..]) && multiset(r) == multiset{q[0]} + multiset(r[1..]);
    assert multiset(q[1..]) == multiset(q) - multiset{q[0]};
    assert multiset(r[1..]) == multiset(r) - multiset{q[0]};
  }

  /** The head of a sorted queue is not after any entry of a queue with the same entries. */
  lemma SameHead<A>(q: Queue<A>, r: Queue<A>)
    requires Sorted(q) && multiset(q) == multiset(r) && q != [] && r != []
    ensures q[0] == r[0] || Before(q[0], r[0])
  {
    assert r[0] in multiset(r);
    var i :| 0 <= i < |q| && q[i] == r[0];
  }

  /** What `check_regen` has built once it has seen the first `i` entries. */
  ghost predicate Regenerated<A>(q: Queue<A>, ranks: Ranks, i: nat, neu: Queue<A>) {
    && i <= |q| && Sorted(neu) && DistinctSerials(neu)
    && multiset(neu) == multiset(Rekeyed(q, ranks)[..i])
  }

  lemma RegenStep<A>(q: Queue<A>, ranks: Ranks, i: nat, neu: Queue<A>)
    requires DistinctSerials(q) && Regenerated(q, ranks, i, neu) && i < |q|
    ensures Regenerated(q, ranks, i + 1, Insert(neu, Rekey(q[i], ranks)))
  {
    var want, e := Rekeyed(q, ranks), Rekey(q[i], ranks);
    assert want[..i + 1] == want[..i] + [e];
    forall f | f in neu
      ensures f.serial != e.serial
    {
      assert f in multiset(neu) && f in multiset(want[..i]) && f in want[..i];
    }
    InsertContents(neu, e);
    InsertSorted(neu, e);
    InsertDistinct(neu, e);
  }

  lemma RegenEnd<A>(q: Queue<A>, ranks: Ranks, neu: Queue<A>, bound: nat)
    requires Regenerated(q, ranks, |q|, neu) && SerialsBelow(q, bound)
    ensures multiset(neu) == multiset(Rekeyed(q, ranks)) && SerialsBelow(neu, bound)
  {
    var want := Rekeyed(q, ranks);
    assert want[..|q|] == want;
    forall f | f in neu
      ensures f.serial < bound
    {
      assert f in multiset(neu) && f in multiset(want) && f in want;
    }
  }

  /** What re-keying means for the entries: each has its node's current rank, and each old one is there again
      with the same number, node and action. */
  lemma RegenSpelt<A>(q: Queue<A>, ranks: Ranks, neu: Queue<A>)
    requires multiset(neu) == multiset(Rekeyed(q, ranks))
    ensures |neu| == |q| && forall e :: e in neu ==> e.rank == ranks(e.node)
    ensures forall e :: e in q ==> Entry(ranks(e.node), e.serial, e.node, e.action) in neu
    ensures forall e :: e in neu ==> exists r :: Entry(r, e.serial, e.node, e.action) in q
  {
    var want := Rekeyed(q, ranks);
    assert |multiset(neu)| == |multiset(want)|;
    forall e | e in neu
      ensures e.rank == ranks(e.node) && exists r :: Entry(r, e.serial, e.node, e.action) in q
    {
      assert e in multiset(neu) && e in multiset(want) && e in want;
      var i :| 0 <= i < |want| && want[i] == e;
      assert Entry(q[i].rank, e.serial, e.node, e.action) == q[i];
    }
    forall e | e in q
      ensures Entry(ranks(e.node), e.serial, e.node, e.action) in neu
    {
      var i :| 0 <= i < |q| && q[i] == e;
      assert want[i] in want && want[i] in multiset(want) && want[i] in multiset(neu);
    }
  }

  /** Sorted is by rank first, and by number among entries of one rank. */
  lemma SortedByRank<A>(q: Queue<A>)
    ensures Sorted(q) <==> forall i, j :: 0 <= i < j < |q| ==>
                             q[i].rank < q[j].rank || (q[i].rank == q[j].rank && q[i].serial < q[j].serial)
  {
    assert forall i, j :: 0 <= i < j < |q| ==>
             (Before(q[i], q[j]) <==> q[i].rank < q[j].rank || (q[i].rank == q[j].rank && q[i].serial < q[j].serial));
  }

  class TransactionImpl<A> {
    var toRegen: bool
    var queue: Queue<A>
    var nextSerial: nat

    ghost predicate Valid()
      reads this
    {
      Sorted(queue) && DistinctSerials(queue) && SerialsBelow(queue, nextSerial + 1)
    }

    constructor ()
      ensures Valid() && queue == [] && !toRegen
    {
      toRegen, queue, nextSerial := false, [], 0;
    }

    /** `prioritized`: number a new entry and insert it under its node's current rank. */
    method Prioritized(node: NodeId, action: A, ranks: Ranks)
      requires Valid()
      modifies this`queue, this`nextSerial
      ensures Valid() && nextSerial == old(nextSerial) + 1
      ensures multiset(queue) == old(multiset(queue)) + multiset{Entry(ranks(node), nextSerial, node, action)}
    {
      nextSerial := nextSerial + 1;
      var e := Entry(ranks(node), nextSerial, node, action);
      InsertContents(queue, e);
      InsertSorted(queue, e);
      InsertDistinct(queue, e);
      queue := Insert(queue, e);
    }

    /** `check_regen`: the same entries, none merged or lost, under their nodes' current ranks. */
    method CheckRegen(ranks: Ranks)
      requires Valid()
      modifies this`toRegen, this`queue
      ensures Valid() && !toRegen
      ensures old(toRegen) ==> multiset(queue) == multiset(Rekeyed(old(queue), ranks))
      ensures old(toRegen) ==> |queue| == |old(queue)| && forall e :: e in queue ==> e.rank == ranks(e.node)
      ensures old(toRegen) ==> forall e :: e in old(queue) ==> Entry(ranks(e.node), e.serial, e.node, e.action) in queue
      ensures !old(toRegen) ==> queue == old(queue)
    {
      if toRegen {
        toRegen := false;
        var neu: Queue<A> := [];
        for i := 0 to |queue|
          invariant !toRegen && queue == old(queue) && Regenerated(queue, ranks, i, neu)
        {
          RegenStep(queue, ranks, i, neu);
          neu := Insert(neu, Rekey(queue[i], ranks));
        }
        RegenEnd(queue, ranks, neu, nextSerial + 1);
        RegenSpelt(queue, ranks, neu);
        queue := neu;
      }
    }
  }

  lemma {:induction false} InsertDistinct<A>(q: Queue<A>, e: Entry<A>)
    requires DistinctSerials(q) && forall f :: f in q ==> f.serial != e.serial
    ensures DistinctSerials(Insert(q, e)) && forall f :: f in Insert(q, e) ==> f in q || f == e
  {
    if q != [] && !Before(e, q[0]) && Before(q[0], e) {
      InsertDistinct(q[1..], e);
      forall j | 0 <= j < |Insert(q[1..], e)|
        ensures Insert(q[1..], e)[j].serial != q[0].serial
      {
        assert Insert(q[1..], e)[j] in Insert(q[1..], e);
        assert q[0] in q;
      }
    }
  }
}
