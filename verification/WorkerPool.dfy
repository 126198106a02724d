/** The worker pool of `process_transactional`: a shared FIFO queue, workers that take an entry, let its
    handler push more, and come back, and a `finished` flag. Every interleaving is a run of `Step`. */
module WorkerPool {
  /** What processing an entry does: entries pushed onto the queue, in order, and values handed to
      listeners. `size` bounds how much work an entry can still lead to. */
  datatype Handlers<!E, !D> = Handlers(pushes: E -> seq<E>, delivers: E -> seq<D>, size: E -> nat)

  /** Every entry leads only to smaller ones. */
  ghost predicate WellFounded<E(!new), D>(h: Handlers<E, D>) {
    forall e, c :: c in h.pushes(e) ==> h.size(c) < h.size(e)
  }

  /** Waiting: at the condition variable. Busy: outside the lock, with `todo` still to push. Exited: returned. */
  datatype Worker<+E> = Waiting | Busy(entry: E, todo: seq<E>) | Exited

  /** `put`, `taken` and `done` record the entries that were put on the queue, taken from it and finished, in
      order; `delivered` what listeners were handed. */
  datatype Pool<E, D(==)> = Pool(queue: seq<E>, workers: seq<Worker<E>>, finished: bool,
                                 put: seq<E>, taken: seq<E>, done: seq<E>, delivered: multiset<D>)

  /** The pool as `process_transactional` starts it. */
  function Start<E, D>(entries: seq<E>, n: nat): Pool<E, D> {
    Pool(entries, seq(n, _ => Waiting), false, entries, [], [], multiset{})
  }

  /** A waiting worker takes the front of the queue. */
  ghost predicate Take<E, D>(h: Handlers<E, D>, s: Pool<E, D>, w: nat, t: Pool<E, D>) {
    && w < |s.workers| && s.workers[w].Waiting? && s.queue != []
    && t == s.(queue := s.queue[1..], workers := s.workers[w := Busy(s.queue[0], h.pushes(s.queue[0]))],
               taken := s.taken + [s.queue[0]])
  }

  /** The handler of a busy worker's entry pushes its next entry at the back. */
  ghost predicate Push<E, D>(s: Pool<E, D>, w: nat, t: Pool<E, D>) {
    && w < |s.workers| && s.workers[w].Busy? && s.workers[w].todo != []
    && var b := s.workers[w];
       t == s.(queue := s.queue + [b.todo[0]], workers := s.workers[w := Busy(b.entry, b.todo[1..])],
               put := s.put + [b.todo[0]])
  }

  /** The handler returns and the entry is deleted. */
  ghost predicate Finish<E, D>(h: Handlers<E, D>, s: Pool<E, D>, w: nat, t: Pool<E, D>) {
    && w < |s.workers| && s.workers[w].Busy? && s.workers[w].todo == []
    && var e := s.workers[w].entry;
       t == s.(workers := s.workers[w := Waiting], done := s.done + [e],
               delivered := s.delivered + multiset(h.delivers(e)))
  }

  /** A worker that finds the queue empty and the flag set returns. */
  ghost predicate Exit<E, D>(s: Pool<E, D>, w: nat, t: Pool<E, D>) {
    && w < |s.workers| && s.workers[w].Waiting? && s.queue == [] && s.finished
    && t == s.(workers := s.workers[w := Exited])
  }

  /** The closing thread sets the flag, after starting the workers. */
  ghost predicate SetFinished<E, D>(s: Pool<E, D>, t: Pool<E, D>) {
    !s.finished && t == s.(finished := true)
  }

  ghost predicate Step<E, D>(h: Handlers<E, D>, s: Pool<E, D>, w: nat, t: Pool<E, D>) {
    Take(h, s, w, t) || Push(s, w, t) || Finish(h, s, w, t) || Exit(s, w, t) || SetFinished(s, t)
  }

  /** One interleaving: the states passed through and the worker that moved at each step. */
  ghost predicate IsRun<E, D>(h: Handlers<E, D>, ss: seq<Pool<E, D>>, ws: seq<nat>) {
    |ss| == |ws| + 1 && forall i :: 0 <= i < |ws| ==> Step(h, ss[i], ws[i], ss[i + 1])
  }

  /** The closing thread has joined every worker. */
  ghost predicate Joined<E, D>(s: Pool<E, D>) {
    s.finished && forall w :: 0 <= w < |s.workers| ==> s.workers[w].Exited?
  }

  // ---- every entry exactly once ----

  ghost function Held<E>(w: Worker<E>, e: E): nat {
    if w.Busy? && w.entry == e then 1 else 0
  }

  /** How many workers are processing `e`. */
  ghost function InFlight<E>(ws: seq<Worker<E>>, e: E): nat {
    if ws == [] then 0 else Held(ws[0], e) + InFlight(ws[1..], e)
  }

  lemma {:induction false} InFlightUpdate<E>(ws: seq<Worker<E>>, w: nat, x: Worker<E>, e: E)
    requires w < |ws|
    ensures InFlight(ws[w := x], e) + Held(ws[w], e) == InFlight(ws, e) + Held(x, e)
  {
    if w == 0 {
      assert ws[w := x][1..] == ws[1..];
    } else {
      InFlightUpdate(ws[1..], w - 1, x, e);
      assert ws[w := x][1..] == ws[1..][w - 1 := x];
    }
  }

  lemma {:induction false} NothingInFlight<E>(ws: seq<Worker<E>>, e: E)
    requires forall w :: 0 <= w < |ws| ==> !ws[w].Busy?
    ensures InFlight(ws, e) == 0
  {
    if ws != [] {
      NothingInFlight(ws[1..], e);
    }
  }

  /** Every issued entry is processed, in flight or queued, exactly once. */
  ghost predicate Accounted<E(!new), D>(s: Pool<E, D>) {
    forall e :: AccountedFor(s, e)
  }

  ghost predicate AccountedFor<E, D>(s: Pool<E, D>, e: E) {
    multiset(s.put)[e] == multiset(s.done)[e] + InFlight(s.workers, e) + multiset(s.queue)[e]
  }

  lemma StepAccounts<E, D>(h: Handlers<E, D>, s: Pool<E, D>, w: nat, t: Pool<E, D>, e: E)
    requires AccountedFor(s, e) && Step(h, s, w, t)
    ensures AccountedFor(t, e)
  {
    if !SetFinished(s, t) {
      InFlightUpdate(s.workers, w, t.workers[w], e);
      if Take(h, s, w, t) {
        assert s.queue == [s.queue[0]] + s.queue[1..];
        assert multiset(s.queue)[e] == multiset{s.queue[0]}[e] + multiset(s.queue[1..])[e];
      }
    }
  }

  /** While the queue is not empty some worker has not exited. */
  ghost predicate Attended<E, D>(s: Pool<E, D>) {
    s.queue != [] ==> exists w :: 0 <= w < |s.workers| && !s.workers[w].Exited?
  }

  lemma StepAttended<E, D>(h: Handlers<E, D>, s: Pool<E, D>, w: nat, t: Pool<E, D>)
    requires Attended(s) && Step(h, s, w, t)
    ensures Attended(t) && |t.workers| == |s.workers|
  {
    hide InFlight;
    if !SetFinished(s, t) && !Exit(s, w, t) {
      assert !t.workers[w].Exited?;
    }
  }

  lemma {:induction false} RunKeeps<E(!new), D>(h: Handlers<E, D>, ss: seq<Pool<E, D>>, ws: seq<nat>)
    requires IsRun(h, ss, ws) && Accounted(ss[0]) && Attended(ss[0])
    ensures var t := ss[|ws|]; Accounted(t) && Attended(t) && |t.workers| == |ss[0].workers|
    decreases |ws|
  {
    if ws != [] {
      var k := |ws| - 1;
      RunKeeps(h, ss[..k + 1], ws[..k]);
      var s, w, t := ss[k], ws[k], ss[k + 1];
      assert Step(h, s, w, t);
      StepAttended(h, s, w, t);
      forall e
        ensures AccountedFor(t, e)
      {
        assert AccountedFor(s, e);
        StepAccounts(h, s, w, t, e);
      }
    }
  }

  /** No worker returns before the flag is set. */
  lemma {:induction false} NobodyLeavesEarly<E, D>(h: Handlers<E, D>, ss: seq<Pool<E, D>>, ws: seq<nat>)
    requires IsRun(h, ss, ws) && forall w :: 0 <= w < |ss[0].workers| ==> !ss[0].workers[w].Exited?
    ensures forall w :: 0 <= w < |ss[|ws|].workers| && ss[|ws|].workers[w].Exited? ==> ss[|ws|].finished
    decreases |ws|
  {
    if ws != [] {
      var k := |ws| - 1;
      NobodyLeavesEarly(h, ss[..k + 1], ws[..k]);
      assert Step(h, ss[k], ws[k], ss[k + 1]);
    }
  }

  lemma StartInOrder<E(!new), D>(entries: seq<E>, n: nat)
    requires n >= 1
    ensures Accounted<E, D>(Start(entries, n)) && Attended<E, D>(Start(entries, n))
  {
    var s: Pool<E, D> := Start(entries, n);
    forall e
      ensures AccountedFor(s, e)
    {
      NothingInFlight(s.workers, e);
    }
    assert !s.workers[0].Exited?;
  }

  /** With at least one worker, when every worker has been joined the queue is empty and every entry ever
      issued has been processed exactly once, whatever the interleaving. */
  lemma JoinedMeansDrained<E(!new), D>(h: Handlers<E, D>, entries: seq<E>, n: nat, ss: seq<Pool<E, D>>, ws: seq<nat>)
    requires n >= 1 && IsRun(h, ss, ws) && ss[0] == Start(entries, n) && Joined(ss[|ws|])
    ensures ss[|ws|].queue == [] && multiset(ss[|ws|].done) == multiset(ss[|ws|].put)
  {
    StartInOrder<E, D>(entries, n);
    RunKeeps(h, ss, ws);
    var t := ss[|ws|];
    forall e
      ensures multiset(t.done)[e] == multiset(t.put)[e]
    {
      assert AccountedFor(t, e);
      NothingInFlight(t.workers, e);
    }
  }

  /** The pool drains in every completed run if and only if it has a worker or was given no work. */
  lemma DrainsIffWorkers<E(!new), D(!new)>(h: Handlers<E, D>, entries: seq<E>, n: nat)
    ensures (forall ss: seq<Pool<E, D>>, ws: seq<nat> ::
               IsRun(h, ss, ws) && ss[0] == Start(entries, n) && Joined(ss[|ws|]) ==> ss[|ws|].queue == [])
            <==> n >= 1 || entries == []
  {
    if n >= 1 {
      forall ss: seq<Pool<E, D>>, ws: seq<nat> | IsRun(h, ss, ws) && ss[0] == Start(entries, n) && Joined(ss[|ws|])
        ensures ss[|ws|].queue == []
      {
        JoinedMeansDrained(h, entries, n, ss, ws);
      }
    } else {
      var s: Pool<E, D> := Start(entries, 0);
      var t := s.(finished := true);
      assert SetFinished(s, t) && Step(h, s, 0, t);
      assert IsRun(h, [s, t], [0]) && Joined(t) && [s, t][0] == s && [s, t][|[0]|] == t;
      if entries == [] {
        forall ss: seq<Pool<E, D>>, ws | IsRun(h, ss, ws) && ss[0] == s && Joined(ss[|ws|])
          ensures ss[|ws|].queue == []
        {
          NoWorkersNoQueue(h, ss, ws);
        }
      }
    }
  }

  lemma {:induction false} NoWorkersNoQueue<E, D>(h: Handlers<E, D>, ss: seq<Pool<E, D>>, ws: seq<nat>)
    requires IsRun(h, ss, ws) && ss[0].queue == [] && ss[0].workers == []
    ensures ss[|ws|].queue == [] && ss[|ws|].workers == []
    decreases |ws|
  {
    if ws != [] {
      var k := |ws| - 1;
      NoWorkersNoQueue(h, ss[..k + 1], ws[..k]);
      assert Step(h, ss[k], ws[k], ss[k + 1]);
    }
  }

  // ---- in order ----

  /** What the handlers of `es` push, in order. */
  function AllPushed<E, D>(h: Handlers<E, D>, es: seq<E>): seq<E> {
    if es == [] then [] else AllPushed(h, es[..|es| - 1]) + h.pushes(es[|es| - 1])
  }

  function AllDelivered<E, D>(h: Handlers<E, D>, es: seq<E>): multiset<D> {
    if es == [] then multiset{} else AllDelivered(h, es[..|es| - 1]) + multiset(h.delivers(es[|es| - 1]))
  }

  /** Entries are taken in the order in which they were put, and finished ones have made their deliveries. */
  ghost predicate InOrder<E, D>(h: Handlers<E, D>, s: Pool<E, D>) {
    s.put == s.taken + s.queue && s.delivered == AllDelivered(h, s.done)
  }

  /** A single worker finishes entries in the order in which it takes them, each with all its pushes made. */
  ghost predicate OneByOne<E, D>(h: Handlers<E, D>, entries: seq<E>, s: Pool<E, D>) {
    && |s.workers| == 1
    && var w := s.workers[0];
       && s.taken == s.done + (if w.Busy? then [w.entry] else [])
       && s.put + (if w.Busy? then w.todo else []) == entries + AllPushed(h, s.taken)
  }

  lemma StepInOrder<E, D>(h: Handlers<E, D>, s: Pool<E, D>, w: nat, t: Pool<E, D>)
    requires InOrder(h, s) && Step(h, s, w, t)
    ensures InOrder(h, t)
  {
    if Finish(h, s, w, t) {
      assert t.done[..|s.done|] == s.done;
    }
  }

  lemma StepOneByOne<E, D>(h: Handlers<E, D>, entries: seq<E>, s: Pool<E, D>, w: nat, t: Pool<E, D>)
    requires OneByOne(h, entries, s) && Step(h, s, w, t)
    ensures OneByOne(h, entries, t)
  {
    if Take(h, s, w, t) {
      assert t.taken[..|s.taken|] == s.taken && s.put + [] == s.put;
      assert entries + AllPushed(h, s.taken) + h.pushes(s.queue[0]) == entries + (AllPushed(h, s.taken) + h.pushes(s.queue[0]));
    } else if Push(s, w, t) {
      var b := s.workers[w];
      assert s.put + b.todo == s.put + [b.todo[0]] + b.todo[1..];
    } else if Finish(h, s, w, t) {
      assert s.put + [] == s.put && t.done + [] == t.done;
    }
  }

  lemma {:induction false} RunInOrder<E, D>(h: Handlers<E, D>, entries: seq<E>, n: nat, ss: seq<Pool<E, D>>, ws: seq<nat>)
    requires IsRun(h, ss, ws) && ss[0] == Start(entries, n)
    ensures InOrder(h, ss[|ws|]) && (n == 1 ==> OneByOne(h, entries, ss[|ws|]))
    decreases |ws|
  {
    if ws == [] {
      assert [] + entries == entries && entries + [] == entries;
    } else {
      var k := |ws| - 1;
      RunInOrder(h, entries, n, ss[..k + 1], ws[..k]);
      assert Step(h, ss[k], ws[k], ss[k + 1]);
      StepInOrder(h, ss[k], ws[k], ss[k + 1]);
      if n == 1 {
        StepOneByOne(h, entries, ss[k], ws[k], ss[k + 1]);
      }
    }
  }

  /** With one worker a completed run has finished the initial entries, then what they pushed, in order, and
      so on: first in, first out. */
  lemma OneWorkerInOrder<E, D>(h: Handlers<E, D>, entries: seq<E>, ss: seq<Pool<E, D>>, ws: seq<nat>)
    requires IsRun(h, ss, ws) && ss[0] == Start(entries, 1) && Joined(ss[|ws|]) && ss[|ws|].queue == []
    ensures ss[|ws|].done == ss[|ws|].put == entries + AllPushed(h, ss[|ws|].done)
    ensures ss[|ws|].delivered == AllDelivered(h, ss[|ws|].done)
  {
    RunInOrder(h, entries, 1, ss, ws);
    var t := ss[|ws|];
    assert t.done + [] == t.done && t.put + [] == t.put && t.taken + [] == t.taken;
  }

  // ---- progress ----

  /** A pool whose workers have not all been joined can always take a step. */
  lemma NeverStuck<E, D>(h: Handlers<E, D>, s: Pool<E, D>)
    requires !Joined(s)
    ensures exists w, t :: Step(h, s, w, t)
  {
    if !s.finished {
      assert Step(h, s, 0, s.(finished := true));
    } else {
      var w :| 0 <= w < |s.workers| && !s.workers[w].Exited?;
      var b := s.workers[w];
      if b.Waiting? && s.queue != [] {
        assert Step(h, s, w, s.(queue := s.queue[1..], workers := s.workers[w := Busy(s.queue[0], h.pushes(s.queue[0]))],
                                taken := s.taken + [s.queue[0]]));
      } else if b.Waiting? {
        assert Step(h, s, w, s.(workers := s.workers[w := Exited]));
      } else if b.todo != [] {
        assert Step(h, s, w, s.(queue := s.queue + [b.todo[0]], workers := s.workers[w := Busy(b.entry, b.todo[1..])],
                                put := s.put + [b.todo[0]]));
      } else {
        assert Step(h, s, w, s.(workers := s.workers[w := Waiting], done := s.done + [b.entry],
                                delivered := s.delivered + multiset(h.delivers(b.entry))));
      }
    }
  }

  /** How many steps an entry can still cause: its own taking and finishing, and a push for each of its children. */
  ghost function Cost<E(!new), D>(h: Handlers<E, D>, e: E): nat
    requires WellFounded(h)
    decreases h.size(e), 1, 0
  {
    2 + CostAll(h, h.pushes(e), h.size(e))
  }

  ghost function CostAll<E(!new), D>(h: Handlers<E, D>, es: seq<E>, bound: nat): nat
    requires WellFounded(h) && forall e :: e in es ==> h.size(e) < bound
    decreases bound, 0, |es|
  {
    if es == [] then 0
    else
      assert es[0] in es;
      1 + Cost(h, es[0]) + CostAll(h, es[1..], bound)
  }

  ghost function QueueCost<E(!new), D>(h: Handlers<E, D>, q: seq<E>): nat
    requires WellFounded(h)
  {
    if q == [] then 0 else Cost(h, q[0]) + QueueCost(h, q[1..])
  }

  lemma {:induction false} QueueCostAppend<E(!new), D>(h: Handlers<E, D>, q: seq<E>, e: E)
    requires WellFounded(h)
    ensures QueueCost(h, q + [e]) == QueueCost(h, q) + Cost(h, e)
  {
    if q == [] {
      assert [] + [e] == [e] && [e][1..] == [];
    } else {
      QueueCostAppend(h, q[1..], e);
      assert (q + [e])[1..] == q[1..] + [e];
    }
  }

  ghost function WorkerCost<E(!new), D>(h: Handlers<E, D>, w: Worker<E>): nat
    requires WellFounded(h)
  {
    match w
    case Waiting => 1
    case Busy(_, todo) => 2 + PushCost(h, todo)
    case Exited => 0
  }

  ghost function PushCost<E(!new), D>(h: Handlers<E, D>, todo: seq<E>): nat
    requires WellFounded(h)
  {
    if todo == [] then 0 else 1 + Cost(h, todo[0]) + PushCost(h, todo[1..])
  }

  lemma {:induction false} PushCostIsCostAll<E(!new), D>(h: Handlers<E, D>, es: seq<E>, bound: nat)
    requires WellFounded(h) && forall e :: e in es ==> h.size(e) < bound
    ensures PushCost(h, es) == CostAll(h, es, bound)
  {
    if es != [] {
      assert es[0] in es;
      PushCostIsCostAll(h, es[1..], bound);
    }
  }

  ghost function WorkersCost<E(!new), D>(h: Handlers<E, D>, ws: seq<Worker<E>>): nat
    requires WellFounded(h)
  {
    if ws == [] then 0 else WorkerCost(h, ws[0]) + WorkersCost(h, ws[1..])
  }

  lemma {:induction false} WorkersCostUpdate<E(!new), D>(h: Handlers<E, D>, ws: seq<Worker<E>>, w: nat, x: Worker<E>)
    requires WellFounded(h) && w < |ws|
    ensures WorkersCost(h, ws[w := x]) + WorkerCost(h, ws[w]) == WorkersCost(h, ws) + WorkerCost(h, x)
  {
    if w == 0 {
      assert ws[w := x][1..] == ws[1..];
    } else {
      WorkersCostUpdate(h, ws[1..], w - 1, x);
      assert ws[w := x][1..] == ws[1..][w - 1 := x];
    }
  }

  /** The steps still possible. */
  ghost function Remaining<E(!new), D>(h: Handlers<E, D>, s: Pool<E, D>): nat
    requires WellFounded(h)
  {
    QueueCost(h, s.queue) + WorkersCost(h, s.workers) + if s.finished then 0 else 1
  }

  lemma StepDecreases<E(!new), D>(h: Handlers<E, D>, s: Pool<E, D>, w: nat, t: Pool<E, D>)
    requires WellFounded(h) && Step(h, s, w, t)
    ensures Remaining(h, t) < Remaining(h, s)
  {
    if !SetFinished(s, t) {
      WorkersCostUpdate(h, s.workers, w, t.workers[w]);
      if Take(h, s, w, t) {
        PushCostIsCostAll(h, h.pushes(s.queue[0]), h.size(s.queue[0]));
      } else if Push(s, w, t) {
        QueueCostAppend(h, s.queue, s.workers[w].todo[0]);
      }
    }
  }

  /** Every run ends: it has at most as many steps as its start has remaining. */
  lemma {:induction false} RunsEnd<E(!new), D>(h: Handlers<E, D>, ss: seq<Pool<E, D>>, ws: seq<nat>)
    requires WellFounded(h) && IsRun(h, ss, ws)
    ensures |ws| + Remaining(h, ss[|ws|]) <= Remaining(h, ss[0])
    decreases |ws|
  {
    if ws != [] {
      var k := |ws| - 1;
      RunsEnd(h, ss[..k + 1], ws[..k]);
      assert Step(h, ss[k], ws[k], ss[k + 1]);
      StepDecreases(h, ss[k], ws[k], ss[k + 1]);
    }
  }
}
