/** Whole transactions of a static network: every processed entry keeps the invariant and makes progress,
    and once the queue is empty every node has fired exactly its meaning. */
module NetworkTheorem {
  import opened Scheduler
  import opened Wrappers
  import opened Network
  import opened NetworkProof

  lemma DeliverKeeps<V>(net: Net<V>, base: Base<V>, s: Sim<V>, got: Got<V>, p: Port, v: V)
    requires Inv(net, base, s, got) && s.queue != [] && s.queue[0].action == Deliver(p, v)
    ensures IsPort(net, p) && p in got
    ensures Inv(net, base, Handle(net, Popped(s), p, v), got[p := got[p] + [v]])
  {
    HeadFacts(net, s.queue, s.next);
    var t, m, got' := Handle(net, Popped(s), p, v), p.node, got[p := got[p] + [v]];
    var outs := Outs(net.kinds[m], s.memory[m], v);
    HandleFacts(net, Popped(s), p, v);
    assert Stepped(net, s, t, m, outs);
    StepSelf(net, base, s, got, p, v);
    GotNext(net, s.queue, got, p, v);
    StepConserves(net, s, t, m, outs, got, got');
    OthersKeep(net, base, s, t, m, outs, got, got');
    QueueAfter(net, s, t, m, outs);
    hide NodeOk, QueueOk, Wired, Stepped, Conserved;
  }

  lemma GotNext<V>(net: Net<V>, q: Queue<Act<V>>, got: Got<V>, p: Port, v: V)
    requires Tracked(net, got) && IsPort(net, p) && q != [] && q[0].action == Deliver(p, v)
    ensures var got' := got[p := got[p] + [v]];
            Tracked(net, got') && forall r :: IsPort(net, r) ==> got'[r] == got[r] + HeadFor(q, r)
  {
    forall r | IsPort(net, r)
      ensures got[p := got[p] + [v]][r] == got[r] + HeadFor(q, r)
    {
      assert r != p ==> got[r] + [] == got[r];
    }
  }

  lemma QueueAfter<V>(net: Net<V>, s: Sim<V>, t: Sim<V>, m: nat, outs: seq<V>)
    requires Stepped(net, s, t, m, outs)
    ensures QueueOk(net, t.queue, t.next) && Sized(net, t)
  {}

  lemma OthersKeep<V>(net: Net<V>, base: Base<V>, s: Sim<V>, t: Sim<V>, m: nat, outs: seq<V>, got: Got<V>, got': Got<V>)
    requires Wired(net) && Sized(net, s) && Sized(net, t) && Tracked(net, got) && Tracked(net, got')
    requires |base.inputs| == |base.memory| == |base.heard| == |net.kinds|
    requires Stepped(net, s, t, m, outs) && forall x :: 0 <= x < |net.kinds| ==> NodeOk(net, base, s, got, x)
    requires forall p :: IsPort(net, p) && p.node != m ==> got'[p] == got[p]
    ensures forall x :: 0 <= x < |net.kinds| && x != m ==> NodeOk(net, base, t, got', x)
  {
    hide NodeOk, Stepped, Wired, Untouched;
    forall x | 0 <= x < |net.kinds| && x != m
      ensures NodeOk(net, base, t, got', x)
    {
      StepUntouched(net, s, t, m, outs, x);
      StepFrame(net, base, s, t, got, got', x);
    }
  }

  lemma FlushKeeps<V>(net: Net<V>, base: Base<V>, s: Sim<V>, got: Got<V>)
    requires Inv(net, base, s, got) && s.queue != [] && s.queue[0].action.Flush?
    ensures var m := s.queue[0].node;
            m < |net.kinds| && s.held[m].Some? && Inv(net, base, FlushHeld(net, Popped(s), m), got)
  {
    var m := s.queue[0].node;
    HeadFacts(net, s.queue, s.next);
    assert NodeOk(net, base, s, got, m);
    var f, vs := net.kinds[m].combine, got[Port(m, 0)];
    CoalesceFlushed(net, s, m, f, vs);
    var t, outs := FlushHeld(net, Popped(s), m), [s.held[m].value];
    assert NodeOk(net, base, t, got, m);
    assert forall p :: IsPort(net, p) ==> got[p] == got[p] + HeadFor(s.queue, p);
    StepConserves(net, s, t, m, outs, got, got);
    OthersKeep(net, base, s, t, m, outs, got, got);
    QueueAfter(net, s, t, m, outs);
    hide NodeOk, QueueOk, Wired, Stepped, Conserved;
  }

  // ---- before the queue is drained ----

  /** Nothing has been processed yet. */
  ghost predicate Fresh<V>(net: Net<V>, got: Got<V>) {
    Tracked(net, got) && forall p :: IsPort(net, p) ==> got[p] == []
  }

  /** Sending to a sink before the transaction closes only adds to that sink's inputs. */
  lemma SinkSendKeeps<V>(net: Net<V>, base: Base<V>, s: Sim<V>, got: Got<V>, n: nat, v: V)
    requires Inv(net, base, s, got) && Fresh(net, got) && n < |net.kinds| && net.kinds[n].Sink?
    ensures Inv(net, base.(inputs := base.inputs[n := base.inputs[n] + [v]]), Send(net, s, n, v), got)
  {
    var t, base' := Send(net, s, n, v), base.(inputs := base.inputs[n := base.inputs[n] + [v]]);
    SendFacts(net, s, n, v);
    SinkConserves(net, s, t, got, n, v);
    forall x | 0 <= x < |net.kinds|
      ensures NodeOk(net, base', t, got, x)
    {
      assert NodeOk(net, base, s, got, x);
      SinkFrame(net, base, base', s, t, got, n, v, x);
    }
    hide NodeOk, QueueOk, Wired, Conserved;
  }

  lemma SinkConserves<V>(net: Net<V>, s: Sim<V>, t: Sim<V>, got: Got<V>, n: nat, v: V)
    requires Wired(net) && Sized(net, s) && Sized(net, t) && n < |net.kinds| && Conserved(net, s, got)
    requires Moved(net, s.queue, t.queue, t.next, n, [v]) && OnlyNode(net, s, t, n, [v])
    ensures Conserved(net, t, got)
  {
    hide QueueOk, Flushes;
    forall p | IsPort(net, p)
      ensures got[p] + Pending(t.queue, p) == t.fired[Source(net, p)]
    {
      assert Source(net, p) < |net.kinds|;
      if Source(net, p) == n {
        assert got[p] + (Pending(s.queue, p) + [v]) == got[p] + Pending(s.queue, p) + [v];
      } else {
        assert Pending(s.queue, p) + [] == Pending(s.queue, p);
      }
    }
  }

  lemma SinkFrame<V>(net: Net<V>, base: Base<V>, base': Base<V>, s: Sim<V>, t: Sim<V>, got: Got<V>, n: nat, v: V, x: nat)
    requires Wired(net) && Sized(net, s) && Sized(net, t) && Fresh(net, got) && n < |net.kinds| && x < |net.kinds|
    requires |base.inputs| == |base.memory| == |base.heard| == |net.kinds| && net.kinds[n].Sink?
    requires base' == base.(inputs := base.inputs[n := base.inputs[n] + [v]]) && NodeOk(net, base, s, got, x)
    requires t.fired == s.fired[n := s.fired[n] + [v]] && t.held == s.held && t.memory == s.memory && t.heard == s.heard
    requires forall y :: Flushes(t.queue, y) == Flushes(s.queue, y)
    ensures NodeOk(net, base', t, got, x)
  {
    assert IsPort(net, Port(x, 0)) ==> got[Port(x, 0)] == [];
    assert IsPort(net, Port(x, 1)) ==> got[Port(x, 1)] == [];
  }

  // ---- once the queue is drained ----

  /** What a node has fired or, for a listener, been called with since the start of the transaction. */
  ghost predicate MeansAt<V>(net: Net<V>, base: Base<V>, s: Sim<V>, n: nat)
    requires Wired(net) && Sized(net, s) && n < |net.kinds|
    requires |base.inputs| == |base.memory| == |base.heard| == |net.kinds|
  {
    var vs := Meaning(net, base.inputs, base.memory, n);
    if net.kinds[n].Listen? then s.heard[n] == base.heard[n] + vs && s.fired[n] == [] else s.fired[n] == vs
  }

  lemma {:induction false} DrainedMeans<V>(net: Net<V>, base: Base<V>, s: Sim<V>, got: Got<V>, n: nat)
    requires Inv(net, base, s, got) && s.queue == [] && n < |net.kinds|
    ensures MeansAt(net, base, s, n)
    ensures forall i :: IsPort(net, Port(n, i)) ==>
              got[Port(n, i)] == Meaning(net, base.inputs, base.memory, Source(net, Port(n, i)))
    decreases net.rank[n]
  {
    forall i | IsPort(net, Port(n, i))
      ensures got[Port(n, i)] == Meaning(net, base.inputs, base.memory, Source(net, Port(n, i)))
    {
      var p := Port(n, i);
      var src := Source(net, p);
      assert net.rank[src] < PortRank(net, p) <= net.rank[n];
      DrainedMeans(net, base, s, got, src);
      ListensNowhere(net, p);
      assert got[p] + Pending(s.queue, p) == s.fired[src];
    }
    assert NodeOk(net, base, s, got, n);
    MeaningStep(net, base, s, got, n);
  }

  lemma ListensNowhere<V>(net: Net<V>, p: Port)
    requires Wired(net) && IsPort(net, p)
    ensures !net.kinds[Source(net, p)].Listen?
  {}

  lemma MeaningStep<V>(net: Net<V>, base: Base<V>, s: Sim<V>, got: Got<V>, n: nat)
    requires Wired(net) && Sized(net, s) && n < |net.kinds| && Tracked(net, got)
    requires |base.inputs| == |base.memory| == |base.heard| == |net.kinds| && NodeOk(net, base, s, got, n)
    requires s.queue == []
    requires forall i :: IsPort(net, Port(n, i)) ==>
               got[Port(n, i)] == Meaning(net, base.inputs, base.memory, Source(net, Port(n, i)))
    ensures MeansAt(net, base, s, n)
  {
    var p, q := Port(n, 0), Port(n, 1);
    match net.kinds[n]
    case Sink =>
    case Map(src, _) => assert IsPort(net, p) && Source(net, p) == src;
    case Filter(src, _) => assert IsPort(net, p) && Source(net, p) == src;
    case Merge(l, r) => assert IsPort(net, p) && IsPort(net, q) && Source(net, p) == l && Source(net, q) == r;
    case Coalesce(src, _) => assert IsPort(net, p) && Source(net, p) == src;
    case Collect(src, _) => assert IsPort(net, p) && Source(net, p) == src;
    case Listen(src) => assert IsPort(net, p) && Source(net, p) == src;
  }

  /** The state a collecting node is left with. */
  ghost predicate StateAt<V>(net: Net<V>, base: Base<V>, s: Sim<V>, n: nat)
    requires Wired(net) && Sized(net, s) && n < |net.kinds| && net.kinds[n].Collect?
    requires |base.inputs| == |base.memory| == |base.heard| == |net.kinds|
  {
    && net.kinds[n].source < |net.kinds|
    && s.memory[n] == Scan(net.kinds[n].step, base.memory[n], Meaning(net, base.inputs, base.memory, net.kinds[n].source)).0
  }

  lemma DrainedState<V>(net: Net<V>, base: Base<V>, s: Sim<V>, got: Got<V>, n: nat)
    requires Inv(net, base, s, got) && s.queue == [] && n < |net.kinds|
    ensures net.kinds[n].Collect? ==> StateAt(net, base, s, n)
  {
    if net.kinds[n].Collect? {
      DrainedMeans(net, base, s, got, n);
      assert IsPort(net, Port(n, 0)) && Source(net, Port(n, 0)) == net.kinds[n].source;
      assert NodeOk(net, base, s, got, n);
    }
  }

  /** A drained coalescing node holds nothing. */
  lemma DrainedHeld<V>(net: Net<V>, base: Base<V>, s: Sim<V>, got: Got<V>, n: nat)
    requires Inv(net, base, s, got) && s.queue == [] && n < |net.kinds| && net.kinds[n].Coalesce?
    ensures s.held[n] == None
  {
    assert NodeOk(net, base, s, got, n);
  }

  lemma InvShape<V>(net: Net<V>, base: Base<V>, s: Sim<V>, got: Got<V>)
    requires Inv(net, base, s, got)
    ensures Wired(net) && Sized(net, s) && QueueOk(net, s.queue, s.next)
    ensures |base.inputs| == |base.memory| == |base.heard| == |net.kinds|
  {}

  /** A network that has not done anything is in order. */
  lemma StartOk<V>(net: Net<V>, base: Base<V>, s: Sim<V>, got: Got<V>)
    requires Wired(net) && Sized(net, s) && |base.inputs| == |base.memory| == |base.heard| == |net.kinds|
    requires s.queue == [] && base.memory == s.memory && base.heard == s.heard && Fresh(net, got)
    requires forall n :: 0 <= n < |net.kinds| ==> s.fired[n] == [] && base.inputs[n] == []
    requires forall n :: 0 <= n < |net.kinds| && net.kinds[n].Coalesce? ==> s.held[n] == None
    ensures Inv(net, base, s, got)
  {
    forall m | 0 <= m < |net.kinds|
      ensures NodeOk(net, base, s, got, m)
    {
      assert IsPort(net, Port(m, 0)) ==> got[Port(m, 0)] == [];
      assert IsPort(net, Port(m, 1)) ==> got[Port(m, 1)] == [];
    }
  }

  // ---- the work left ----

  /** The highest rank of any node. */
  ghost function Top(ranks: seq<nat>): (top: nat)
    ensures forall i :: 0 <= i < |ranks| ==> ranks[i] <= top
  {
    if ranks == [] then 0
    else
      var rest := Top(ranks[..|ranks| - 1]);
      var r := ranks[|ranks| - 1];
      assert forall i :: 0 <= i < |ranks| - 1 ==> ranks[i] == ranks[..|ranks| - 1][i];
      if r > rest then r else rest
  }

  ghost predicate Above<V>(net: Net<V>, r: nat, ports: seq<Port>)
    requires Wired(net)
  {
    forall p :: p in ports ==> IsPort(net, p) && net.rank[p.node] > r
  }

  lemma ListenersAbove<V>(net: Net<V>, n: nat)
    requires Wired(net) && n < |net.kinds|
    ensures Above(net, net.rank[n], net.listeners[n])
  {}

  /** How many entries a delivery to node `n` can still lead to, itself counted twice. */
  ghost function Work<V>(net: Net<V>, n: nat): nat
    requires Wired(net) && n < |net.kinds|
    decreases Top(net.rank) - net.rank[n], |net.listeners[n]| + 1
  {
    ListenersAbove(net, n);
    2 + WorkAll(net, net.rank[n], net.listeners[n])
  }

  ghost function WorkAll<V>(net: Net<V>, r: nat, ports: seq<Port>): nat
    requires Wired(net) && Above(net, r, ports) && r <= Top(net.rank)
    decreases Top(net.rank) - r, |ports|
  {
    if ports == [] then 0
    else
      assert ports[0] in ports;
      Work(net, ports[0].node) + WorkAll(net, r, ports[1..])
  }

  ghost function EntryWork<V>(net: Net<V>, e: Entry<Act<V>>): (w: nat)
    requires Wired(net) && EntryOk(net, e)
    ensures w > 0
  {
    if e.action.Deliver? then Work(net, e.node) else Work(net, e.node) - 1
  }

  ghost function QueueWork<V>(net: Net<V>, q: Queue<Act<V>>): nat
    requires Wired(net) && forall e :: e in q ==> EntryOk(net, e)
  {
    if q == [] then 0
    else
      assert q[0] in q;
      EntryWork(net, q[0]) + QueueWork(net, q[1..])
  }

  lemma {:induction false} InsertWork<V>(net: Net<V>, q: Queue<Act<V>>, next: nat, e: Entry<Act<V>>, r: Queue<Act<V>>)
    requires Wired(net) && QueueOk(net, q, next) && EntryOk(net, e) && e.serial == next + 1 && r == Insert(q, e)
    ensures QueueOk(net, r, next + 1) && QueueWork(net, r) == QueueWork(net, q) + EntryWork(net, e)
  {
    InsertOk(net, q, next, e);
    if q == [] || Before(e, q[0]) {
      assert r[1..] == q;
    } else {
      assert q[0] in q;
      InsertWork(net, q[1..], next, e, Insert(q[1..], e));
      assert r[1..] == Insert(q[1..], e) && r[0] == q[0];
    }
  }

  lemma {:induction false} PostWork<V>(net: Net<V>, q: Queue<Act<V>>, next: nat, ports: seq<Port>, v: V, r: nat)
    requires Wired(net) && QueueOk(net, q, next) && NoRepeats(ports) && Above(net, r, ports) && r <= Top(net.rank)
    ensures var q' := Post(net, q, next, ports, v);
            QueueOk(net, q', next + |ports|) && QueueWork(net, q') == QueueWork(net, q) + WorkAll(net, r, ports)
    decreases ports
  {
    PostFacts(net, q, next, ports, v);
    if ports != [] {
      assert ports[0] in ports;
      var e := DeliverEntry(net, next + 1, ports[0], v);
      InsertWork(net, q, next, e, Insert(q, e));
      PostWork(net, Insert(q, e), next + 1, ports[1..], v, r);
    }
  }

  /** Every processed entry leaves less work. */
  lemma DeliverProgress<V>(net: Net<V>, s: Sim<V>, p: Port, v: V)
    requires Wired(net) && Sized(net, s) && s.queue != [] && QueueOk(net, s.queue, s.next) && IsPort(net, p)
    requires s.queue[0].action == Deliver(p, v)
    ensures var t := Handle(net, Popped(s), p, v);
            QueueOk(net, t.queue, t.next) && QueueWork(net, t.queue) < QueueWork(net, s.queue)
  {
    hide QueueOk;
    HeadFacts(net, s.queue, s.next);
    QueueWorkSplit(net, s.queue, s.next);
    HandleWork(net, Popped(s), p, v);
  }

  /** A queue in order, holding less than `m`'s work more than `q` does. */
  ghost predicate Lighter<V>(net: Net<V>, q: Queue<Act<V>>, next: nat, m: nat, q': Queue<Act<V>>, next': nat)
    requires Wired(net) && QueueOk(net, q, next) && m < |net.kinds|
  {
    QueueOk(net, q', next') && QueueWork(net, q') < QueueWork(net, q) + Work(net, m)
  }

  /** Handling a delivery adds less work than the delivery stood for. */
  lemma HandleWork<V>(net: Net<V>, s: Sim<V>, p: Port, v: V)
    requires Wired(net) && Sized(net, s) && QueueOk(net, s.queue, s.next) && IsPort(net, p)
    ensures var t := Handle(net, s, p, v);
            Lighter(net, s.queue, s.next, p.node, t.queue, t.next)
  {
    hide Wired, QueueOk, Lighter;
    var m := p.node;
    SameWork(net, s.queue, s.next, m);
    match net.kinds[m]
    case Map(_, f) => SendWork(net, s.queue, s.next, m, f(v));
    case Filter(_, _) => SendWork(net, s.queue, s.next, m, v);
    case Merge(_, _) => SendWork(net, s.queue, s.next, m, v);
    case Collect(_, step) => SendWork(net, s.queue, s.next, m, step(v, s.memory[m]).0);
    case Coalesce(_, _) => FlushWork(net, s.queue, s.next, m);
    case Listen(_) =>
  }

  lemma SameWork<V>(net: Net<V>, q: Queue<Act<V>>, next: nat, m: nat)
    requires Wired(net) && QueueOk(net, q, next) && m < |net.kinds|
    ensures Lighter(net, q, next, m, q, next)
  {}

  lemma FlushWork<V>(net: Net<V>, q: Queue<Act<V>>, next: nat, m: nat)
    requires Wired(net) && QueueOk(net, q, next) && m < |net.kinds| && net.kinds[m].Coalesce?
    ensures Lighter(net, q, next, m, Insert(q, FlushEntry(net, next + 1, m)), next + 1)
  {
    FlushEntryOk(net, next + 1, m);
    var e := FlushEntry(net, next + 1, m);
    InsertWork(net, q, next, e, Insert(q, e));
  }

  /** A send adds the work of the deliveries it queues. */
  lemma SendWork<V>(net: Net<V>, q: Queue<Act<V>>, next: nat, m: nat, v: V)
    requires Wired(net) && QueueOk(net, q, next) && m < |net.kinds|
    ensures forall p :: p in net.listeners[m] ==> IsPort(net, p)
    ensures Lighter(net, q, next, m, Post(net, q, next, net.listeners[m], v), next + |net.listeners[m]|)
  {
    ListenersAbove(net, m);
    PostWork(net, q, next, net.listeners[m], v, net.rank[m]);
  }

  lemma QueueWorkSplit<V>(net: Net<V>, q: Queue<Act<V>>, next: nat)
    requires Wired(net) && QueueOk(net, q, next) && q != []
    ensures EntryOk(net, q[0]) && (forall e :: e in q[1..] ==> EntryOk(net, e)) && (forall e :: e in q ==> EntryOk(net, e))
    ensures QueueWork(net, q) == EntryWork(net, q[0]) + QueueWork(net, q[1..])
  {
    assert q[0] in q;
  }

  lemma FlushProgress<V>(net: Net<V>, s: Sim<V>)
    requires Wired(net) && Sized(net, s) && s.queue != [] && QueueOk(net, s.queue, s.next)
    requires s.queue[0].action.Flush? && s.queue[0].node < |net.kinds| && s.held[s.queue[0].node].Some?
    ensures var t := FlushHeld(net, Popped(s), s.queue[0].node);
            QueueOk(net, t.queue, t.next) && QueueWork(net, t.queue) < QueueWork(net, s.queue)
  {
    HeadFacts(net, s.queue, s.next);
    var m := s.queue[0].node;
    ListenersAbove(net, m);
    PostWork(net, s.queue[1..], s.next, net.listeners[m], s.held[m].value, net.rank[m]);
  }
}
