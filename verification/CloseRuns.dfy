/** Every run of `transaction_impl::close` over arbitrary handlers. A handler is any choice of entries,
    last actions and post actions to add, at ranks not below its own entry's; ranks stay fixed. */
module CloseRuns {
  import opened Scheduler

  /** What one handler or action adds. */
  datatype Effects<+A, +L> = Effects(enqueue: seq<(NodeId, A)>, last: seq<L>, post: seq<L>)

  datatype Event<+A, +L> = Ran(entry: Entry<A>) | Last(action: L) | Post(action: L)

  datatype State<+A(==), +L> = State(
    queue: Queue<A>, next: nat,
    last: seq<L>, lastDone: nat,
    post: seq<L>, postDone: nat,
    ran: seq<Entry<A>>, issued: multiset<Entry<A>>, log: seq<Event<A, L>>)

  /** Insert the new entries, each under the next sequence number. */
  function EnqueueAll<A>(q: Queue<A>, next: nat, es: seq<(NodeId, A)>, ranks: Ranks): Queue<A>
    decreases es
  {
    if es == [] then q
    else EnqueueAll(Insert(q, NewEntry(next, es[0], ranks)), next + 1, es[1..], ranks)
  }

  function NewEntry<A>(next: nat, e: (NodeId, A), ranks: Ranks): Entry<A> {
    Entry(ranks(e.0), next + 1, e.0, e.1)
  }

  /** The entries that enqueuing makes: numbered on from `next`, each under its node's rank. */
  function Numbered<A>(next: nat, es: seq<(NodeId, A)>, ranks: Ranks): (r: seq<Entry<A>>)
    ensures |r| == |es| && forall i :: 0 <= i < |es| ==> r[i] == Entry(ranks(es[i].0), next + 1 + i, es[i].0, es[i].1)
    decreases es
  {
    if es == [] then [] else [NewEntry(next, es[0], ranks)] + Numbered(next + 1, es[1..], ranks)
  }

  /** The scheduler pops the least entry and its handler adds `fx`. */
  ghost predicate RunEntry<A, L>(ranks: Ranks, s: State<A, L>, fx: Effects<A, L>, t: State<A, L>) {
    && s.queue != []
    && (forall x :: x in fx.enqueue ==> ranks(x.0) >= s.queue[0].rank)
    && t == s.(queue := EnqueueAll(s.queue[1..], s.next, fx.enqueue, ranks), next := s.next + |fx.enqueue|,
               last := s.last + fx.last, post := s.post + fx.post,
               ran := s.ran + [s.queue[0]], issued := s.issued + multiset(Numbered(s.next, fx.enqueue, ranks)),
               log := s.log + [Ran(s.queue[0])])
  }

  /** With the queue empty, the next last action runs; it may append last and post actions. */
  ghost predicate RunLast<A, L>(s: State<A, L>, fx: Effects<A, L>, t: State<A, L>) {
    && s.queue == [] && s.lastDone < |s.last| && fx.enqueue == []
    && t == s.(last := s.last + fx.last, post := s.post + fx.post, lastDone := s.lastDone + 1,
               log := s.log + [Last(s.last[s.lastDone])])
  }

  /** With the last actions done, the next post action runs; it may append post actions. */
  ghost predicate RunPost<A, L>(s: State<A, L>, fx: Effects<A, L>, t: State<A, L>) {
    && s.queue == [] && s.lastDone == |s.last| && s.postDone < |s.post| && fx.enqueue == [] && fx.last == []
    && t == s.(post := s.post + fx.post, postDone := s.postDone + 1, log := s.log + [Post(s.post[s.postDone])])
  }

  ghost predicate Step<A, L>(ranks: Ranks, s: State<A, L>, fx: Effects<A, L>, t: State<A, L>) {
    RunEntry(ranks, s, fx, t) || RunLast(s, fx, t) || RunPost(s, fx, t)
  }

  ghost predicate IsRun<A, L>(ranks: Ranks, ss: seq<State<A, L>>, fxs: seq<Effects<A, L>>) {
    |ss| == |fxs| + 1 && forall i :: 0 <= i < |fxs| ==> Step(ranks, ss[i], fxs[i], ss[i + 1])
  }

  /** The transaction as `close` finds it. */
  ghost predicate Opened<A, L>(s: State<A, L>) {
    && Sorted(s.queue) && DistinctSerials(s.queue) && SerialsBelow(s.queue, s.next + 1)
    && s.issued == multiset(s.queue) && s.ran == [] && s.log == [] && s.lastDone == 0 && s.postDone == 0
  }

  ghost predicate Closed<A, L>(s: State<A, L>) {
    s.queue == [] && s.lastDone == |s.last| && s.postDone == |s.post|
  }

  function RanAll<A, L>(es: seq<Entry<A>>): (r: seq<Event<A, L>>)
    ensures |r| == |es| && forall i :: 0 <= i < |es| ==> r[i] == Ran(es[i])
  {
    seq(|es|, i requires 0 <= i < |es| => Ran(es[i]))
  }

  function LastAll<A, L>(ls: seq<L>): (r: seq<Event<A, L>>)
    ensures |r| == |ls| && forall i :: 0 <= i < |ls| ==> r[i] == Last(ls[i])
  {
    seq(|ls|, i requires 0 <= i < |ls| => Last(ls[i]))
  }

  function PostAll<A, L>(ls: seq<L>): (r: seq<Event<A, L>>)
    ensures |r| == |ls| && forall i :: 0 <= i < |ls| ==> r[i] == Post(ls[i])
  {
    seq(|ls|, i requires 0 <= i < |ls| => Post(ls[i]))
  }

  // ---- what every step keeps ----

  ghost predicate QueueInv<A>(q: Queue<A>, next: nat, ran: seq<Entry<A>>, issued: multiset<Entry<A>>) {
    && Sorted(q) && DistinctSerials(q) && SerialsBelow(q, next + 1)
    && Sorted(ran) && SerialsBelow(ran, next + 1)
    && (forall e, f :: e in ran && f in q ==> Before(e, f))
    && multiset(ran) + multiset(q) == issued
  }

  ghost predicate Inv<A, L>(s: State<A, L>) {
    && QueueInv(s.queue, s.next, s.ran, s.issued)
    && s.lastDone <= |s.last| && s.postDone <= |s.post|
    && (s.lastDone > 0 ==> s.queue == []) && (s.postDone > 0 ==> s.queue == [] && s.lastDone == |s.last|)
    && s.log == RanAll(s.ran) + LastAll(s.last[..s.lastDone]) + PostAll(s.post[..s.postDone])
  }

  lemma {:induction false} EnqueueKeeps<A>(q: Queue<A>, next: nat, es: seq<(NodeId, A)>, ranks: Ranks, ran: seq<Entry<A>>,
                                           issued: multiset<Entry<A>>)
    requires QueueInv(q, next, ran, issued)
    requires forall e, x :: e in ran && x in es ==> e.rank <= ranks(x.0)
    ensures QueueInv(EnqueueAll(q, next, es, ranks), next + |es|, ran, issued + multiset(Numbered(next, es, ranks)))
    decreases es
  {
    if es != [] {
      var e := NewEntry(next, es[0], ranks);
      EnqueueOne(q, next, es[0], ranks, ran, issued);
      EnqueueKeeps(Insert(q, e), next + 1, es[1..], ranks, ran, issued + multiset{e});
      assert Numbered(next, es, ranks) == [e] + Numbered(next + 1, es[1..], ranks);
      assert issued + multiset{e} + multiset(Numbered(next + 1, es[1..], ranks)) == issued + multiset(Numbered(next, es, ranks));
    }
  }

  lemma EnqueueOne<A>(q: Queue<A>, next: nat, x: (NodeId, A), ranks: Ranks, ran: seq<Entry<A>>, issued: multiset<Entry<A>>)
    requires QueueInv(q, next, ran, issued) && forall e :: e in ran ==> e.rank <= ranks(x.0)
    ensures QueueInv(Insert(q, NewEntry(next, x, ranks)), next + 1, ran, issued + multiset{NewEntry(next, x, ranks)})
  {
    var n := NewEntry(next, x, ranks);
    InsertContents(q, n);
    InsertSorted(q, n);
    InsertDistinct(q, n);
    forall e, f | e in ran && f in Insert(q, n)
      ensures Before(e, f)
    {
      InsertMember(q, n, f);
    }
  }

  lemma PopKeeps<A>(q: Queue<A>, next: nat, ran: seq<Entry<A>>, issued: multiset<Entry<A>>)
    requires QueueInv(q, next, ran, issued) && q != []
    ensures QueueInv(q[1..], next, ran + [q[0]], issued)
    ensures forall e :: e in ran + [q[0]] ==> e.rank <= q[0].rank
  {
    assert q == [q[0]] + q[1..] && q[0] in q;
    assert multiset(q) == multiset{q[0]} + multiset(q[1..]);
  }

  lemma EntryKeeps<A, L>(ranks: Ranks, s: State<A, L>, fx: Effects<A, L>, t: State<A, L>)
    requires Inv(s) && RunEntry(ranks, s, fx, t)
    ensures Inv(t)
  {
    PopKeeps(s.queue, s.next, s.ran, s.issued);
    EnqueueKeeps(s.queue[1..], s.next, fx.enqueue, ranks, t.ran, s.issued);
    hide QueueInv;
    assert s.last[..0] == [] && s.post[..0] == [] && t.last[..0] == [] && t.post[..0] == [];
    assert t.log == RanAll(t.ran) + LastAll(t.last[..0]) + PostAll(t.post[..0]);
  }

  lemma LastKeeps<A, L>(s: State<A, L>, fx: Effects<A, L>, t: State<A, L>)
    requires Inv(s) && (RunLast(s, fx, t) || RunPost(s, fx, t))
    ensures Inv(t)
  {
    hide QueueInv;
    if RunLast(s, fx, t) {
      assert t.last[..t.lastDone] == s.last[..s.lastDone] + [s.last[s.lastDone]];
      assert t.post[..0] == s.post[..0] == [];
    } else {
      assert t.post[..t.postDone] == s.post[..s.postDone] + [s.post[s.postDone]];
    }
  }

  /** Over any run: entries run in strictly increasing (rank, number) order, every issued entry runs or
      is still queued, exactly once, and nothing of a later phase runs before an earlier phase is over. */
  lemma {:induction false} RunKeeps<A, L>(ranks: Ranks, ss: seq<State<A, L>>, fxs: seq<Effects<A, L>>)
    requires IsRun(ranks, ss, fxs) && Opened(ss[0])
    ensures Inv(ss[|fxs|])
    decreases |fxs|
  {
    if fxs == [] {
      assert multiset(ss[0].ran) + multiset(ss[0].queue) == ss[0].issued;
    } else {
      var k := |fxs| - 1;
      RunKeeps(ranks, ss[..k + 1], fxs[..k]);
      assert Step(ranks, ss[k], fxs[k], ss[k + 1]);
      if RunEntry(ranks, ss[k], fxs[k], ss[k + 1]) {
        EntryKeeps(ranks, ss[k], fxs[k], ss[k + 1]);
      } else {
        LastKeeps(ss[k], fxs[k], ss[k + 1]);
      }
    }
  }

  // ---- what there was to run ----

  function AllEnqueued<A, L>(fxs: seq<Effects<A, L>>): seq<(NodeId, A)> {
    if fxs == [] then [] else AllEnqueued(fxs[..|fxs| - 1]) + fxs[|fxs| - 1].enqueue
  }

  function AllLast<A, L>(fxs: seq<Effects<A, L>>): seq<L> {
    if fxs == [] then [] else AllLast(fxs[..|fxs| - 1]) + fxs[|fxs| - 1].last
  }

  function AllPost<A, L>(fxs: seq<Effects<A, L>>): seq<L> {
    if fxs == [] then [] else AllPost(fxs[..|fxs| - 1]) + fxs[|fxs| - 1].post
  }

  /** Over any run the last and post actions are the initial ones and those added, in the order of adding. */
  lemma {:induction false} RunActions<A, L>(ranks: Ranks, ss: seq<State<A, L>>, fxs: seq<Effects<A, L>>)
    requires IsRun(ranks, ss, fxs)
    ensures ss[|fxs|].last == ss[0].last + AllLast(fxs) && ss[|fxs|].post == ss[0].post + AllPost(fxs)
    decreases |fxs|
  {
    hide Step;
    if fxs == [] {
      assert ss[0].last + [] == ss[0].last && ss[0].post + [] == ss[0].post;
    } else {
      var k := |fxs| - 1;
      RunActions(ranks, ss[..k + 1], fxs[..k]);
      StepContents(ranks, ss[k], fxs[k], ss[k + 1]);
      Appended(ss[0].last, AllLast(fxs[..k]), fxs[k].last);
      Appended(ss[0].post, AllPost(fxs[..k]), fxs[k].post);
    }
  }

  /** What was issued from `s` to `t` is entries for `es`, in order. */
  ghost predicate IssuedFor<A, L>(ranks: Ranks, s: State<A, L>, t: State<A, L>, es: seq<(NodeId, A)>) {
    t.next == s.next + |es| && t.issued == s.issued + multiset(Numbered(s.next, es, ranks))
  }

  /** Over any run nothing is issued but the initial queue and what handlers enqueued, in order. */
  lemma {:induction false} RunIssues<A, L>(ranks: Ranks, ss: seq<State<A, L>>, fxs: seq<Effects<A, L>>)
    requires IsRun(ranks, ss, fxs)
    ensures IssuedFor(ranks, ss[0], ss[|fxs|], AllEnqueued(fxs))
    decreases |fxs|
  {
    if fxs != [] {
      hide Step, IssuedFor;
      var k := |fxs| - 1;
      RunIssues(ranks, ss[..k + 1], fxs[..k]);
      StepIssues(ranks, ss[0], ss[k], fxs[k], ss[k + 1], AllEnqueued(fxs[..k]));
    }
  }

  lemma StepIssues<A, L>(ranks: Ranks, s: State<A, L>, r: State<A, L>, fx: Effects<A, L>, t: State<A, L>,
                         es: seq<(NodeId, A)>)
    requires IssuedFor(ranks, s, r, es) && Step(ranks, r, fx, t)
    ensures IssuedFor(ranks, s, t, es + fx.enqueue)
  {
    hide Step, Numbered;
    StepContents(ranks, r, fx, t);
    IssuedNext(s.issued, s.next, es, fx.enqueue, ranks);
  }

  lemma IssuedNext<A>(issued: multiset<Entry<A>>, next: nat, es: seq<(NodeId, A)>, fs: seq<(NodeId, A)>, ranks: Ranks)
    ensures issued + multiset(Numbered(next, es, ranks)) + multiset(Numbered(next + |es|, fs, ranks))
         == issued + multiset(Numbered(next, es + fs, ranks))
  {
    NumberedAppend(next, es, fs, ranks);
    hide Numbered;
  }

  lemma StepContents<A, L>(ranks: Ranks, s: State<A, L>, fx: Effects<A, L>, t: State<A, L>)
    requires Step(ranks, s, fx, t)
    ensures t.last == s.last + fx.last && t.post == s.post + fx.post && t.next == s.next + |fx.enqueue|
    ensures t.issued == s.issued + multiset(Numbered(s.next, fx.enqueue, ranks))
  {}

  lemma Appended<T>(a: seq<T>, b: seq<T>, c: seq<T>)
    ensures a + b + c == a + (b + c)
  {}

  lemma NumberedAppend<A>(next: nat, es: seq<(NodeId, A)>, fs: seq<(NodeId, A)>, ranks: Ranks)
    ensures Numbered(next, es + fs, ranks) == Numbered(next, es, ranks) + Numbered(next + |es|, fs, ranks)
  {}

  /** A completed `close` has run every issued entry once, in order, then every last action in order,
      then every post action in order, those appended on the way included. */
  lemma CloseRunsEverything<A, L>(ranks: Ranks, ss: seq<State<A, L>>, fxs: seq<Effects<A, L>>)
    requires IsRun(ranks, ss, fxs) && Opened(ss[0]) && Closed(ss[|fxs|])
    ensures var t := ss[|fxs|];
            && t.log == RanAll(t.ran) + LastAll(ss[0].last + AllLast(fxs)) + PostAll(ss[0].post + AllPost(fxs))
            && multiset(t.ran) == multiset(ss[0].queue) + multiset(Numbered(ss[0].next, AllEnqueued(fxs), ranks))
            && forall i, j :: 0 <= i < j < |t.ran| ==>
                 t.ran[i].rank < t.ran[j].rank || (t.ran[i].rank == t.ran[j].rank && t.ran[i].serial < t.ran[j].serial)
  {
    RunKeeps(ranks, ss, fxs);
    RunActions(ranks, ss, fxs);
    RunIssues(ranks, ss, fxs);
    SortedByRank(ss[|fxs|].ran);
    var t := ss[|fxs|];
    assert t.last[..|t.last|] == t.last && t.post[..|t.post|] == t.post;
  }

  /** No state of a run is stuck before the transaction is closed. */
  lemma CloseNotStuck<A, L>(ranks: Ranks, s: State<A, L>)
    requires Inv(s) && !Closed(s)
    ensures exists t :: Step(ranks, s, Effects([], [], []), t)
  {
    var none: Effects<A, L> := Effects([], [], []);
    if s.queue != [] {
      var t := s.(queue := EnqueueAll(s.queue[1..], s.next, [], ranks), next := s.next, last := s.last + [],
                  post := s.post + [], ran := s.ran + [s.queue[0]], issued := s.issued + multiset(Numbered(s.next, [], ranks)),
                  log := s.log + [Ran(s.queue[0])]);
      assert RunEntry(ranks, s, none, t);
      assert Step(ranks, s, none, t);
    } else if s.lastDone < |s.last| {
      var t := s.(last := s.last + [], post := s.post + [], lastDone := s.lastDone + 1,
                  log := s.log + [Last(s.last[s.lastDone])]);
      assert Step(ranks, s, none, t);
    } else {
      var t := s.(post := s.post + [], postDone := s.postDone + 1, log := s.log + [Post(s.post[s.postDone])]);
      assert Step(ranks, s, none, t);
    }
  }
}
