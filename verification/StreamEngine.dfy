/** The transaction over a static network as the original runs it: firings, queue and per-node state are
    fields, `send` loops over the listeners, and `close` drains the queue and then runs the last actions. */
module StreamEngine {
  import opened Scheduler
  import opened Wrappers
  import opened Network
  import opened NetworkProof
  import opened NetworkTheorem
  import opened NetworkMeaning

  ghost function PortsOf<V>(net: Net<V>): (ps: set<Port>)
    ensures forall p :: p in ps <==> IsPort(net, p)
  {
    set m, i | 0 <= m < |net.kinds| && 0 <= i < 2 && IsPort(net, Port(m, i)) :: Port(m, i)
  }

  ghost function NothingGot<V>(net: Net<V>): Got<V> {
    map p | p in PortsOf(net) :: []
  }

  /** The nodes that fired are exactly those with a clearing action pending, one each. */
  ghost predicate ClearsPending<V>(fired: seq<seq<V>>, lastQ: seq<nat>) {
    && (forall n :: 0 <= n < |fired| ==> (fired[n] != [] <==> n in lastQ))
    && (forall n :: n in lastQ ==> n < |fired|)
    && (forall i, j :: 0 <= i < j < |lastQ| ==> lastQ[i] != lastQ[j])
  }

  lemma ClearOnFirst<V>(fired: seq<seq<V>>, lastQ: seq<nat>, n: nat, v: V)
    requires ClearsPending(fired, lastQ) && n < |fired|
    ensures ClearsPending(fired[n := fired[n] + [v]], if fired[n] == [] then lastQ + [n] else lastQ)
  {}

  class Engine<V> {
    const net: Net<V>
    var queue: Queue<Act<V>>
    var next: nat
    var fired: seq<seq<V>>
    var held: seq<Option<V>>
    var memory: seq<V>
    var heard: seq<seq<V>>
    var lastQ: seq<nat>
    ghost var base: Base<V>
    ghost var got: Got<V>

    ghost function View(): Sim<V>
      reads this
    {
      Sim(queue, next, fired, held, memory, heard)
    }

    ghost predicate Valid()
      reads this
    {
      Inv(net, base, View(), got) && ClearsPending(fired, lastQ)
    }

    /** Between transactions: nothing queued, fired or held. */
    ghost predicate Idle()
      reads this
    {
      && Valid() && queue == [] && lastQ == [] && Fresh(net, got)
      && base.memory == memory && base.heard == heard && (forall n :: 0 <= n < |base.inputs| ==> base.inputs[n] == [])
    }

    constructor (net: Net<V>, memory: seq<V>)
      requires Wired(net) && |memory| == |net.kinds|
      ensures Idle() && this.net == net && this.memory == memory
      ensures forall n :: 0 <= n < |net.kinds| ==> heard[n] == []
    {
      this.net, this.memory := net, memory;
      queue, next, lastQ := [], 0, [];
      fired, heard := seq(|net.kinds|, _ => []), seq(|net.kinds|, _ => []);
      held := seq(|net.kinds|, _ => None);
      base := Base(seq(|net.kinds|, _ => []), memory, seq(|net.kinds|, _ => []));
      got := NothingGot(net);
      new;
      StartOk(net, base, View(), got);
    }

    /** `stream_with_send::send`. */
    method Send(n: nat, v: V)
      requires Wired(net) && Sized(net, View()) && n < |net.kinds| && ClearsPending(fired, lastQ)
      modifies this`queue, this`next, this`fired, this`lastQ
      ensures View() == Network.Send(net, old(View()), n, v)
      ensures ClearsPending(fired, lastQ)
      ensures lastQ == if old(fired)[n] == [] then old(lastQ) + [n] else old(lastQ)
      ensures SerialsBelow(old(queue), old(next) + 1) ==> Sent(net, old(View()), View(), n, v)
    {
      hide Sent, SerialsBelow, Post;
      ghost var s := View();
      ClearOnFirst(fired, lastQ, n, v);
      if SerialsBelow(queue, next + 1) {
        SendSpelt(net, s, memory, n, v);
      }
      if fired[n] == [] {
        lastQ := lastQ + [n];
      }
      fired := fired[n := fired[n] + [v]];
      Enqueue(net.listeners[n], v);
    }

    /** The loop over the listeners. */
    method Enqueue(ports: seq<Port>, v: V)
      requires Wired(net) && forall p :: p in ports ==> IsPort(net, p)
      modifies this`queue, this`next
      ensures queue == Post(net, old(queue), old(next), ports, v) && next == old(next) + |ports|
    {
      hide Wired;
      ghost var all := Post(net, queue, next, ports, v);
      assert ports[0..] == ports;
      for i := 0 to |ports|
        invariant Post(net, queue, next, ports[i..], v) == all && next == old(next) + i
      {
        assert ports[i] in ports && ports[i..][0] == ports[i] && ports[i..][1..] == ports[i + 1..];
        next := next + 1;
        queue := Insert(queue, DeliverEntry(net, next, ports[i], v));
      }
      assert ports[|ports|..] == [];
    }

    /** `stream_sink::send`, before the transaction closes. */
    method SendSink(n: nat, v: V)
      requires Valid() && Fresh(net, got) && n < |net.kinds| && net.kinds[n].Sink?
      modifies this
      ensures Valid() && got == old(got)
      ensures base == old(base).(inputs := old(base).inputs[n := old(base).inputs[n] + [v]])
    {
      hide Inv;
      InvShape(net, base, View(), got);
      SinkSendKeeps(net, base, View(), got, n, v);
      Send(n, v);
      base := base.(inputs := base.inputs[n := base.inputs[n] + [v]]);
    }

    /** The handler registered at a port. */
    method Handle(p: Port, v: V)
      requires Wired(net) && Sized(net, View()) && IsPort(net, p) && ClearsPending(fired, lastQ)
      modifies this`queue, this`next, this`fired, this`held, this`memory, this`heard, this`lastQ
      ensures View() == Network.Handle(net, old(View()), p, v)
      ensures ClearsPending(fired, lastQ)
      ensures SerialsBelow(old(queue), old(next) + 1) ==> Handled(net, old(View()), View(), p, v)
    {
      hide Sent, Handled, SerialsBelow, ClearsPending;
      ghost var s := View();
      if SerialsBelow(queue, next + 1) {
        HandleSpelt(net, s, p, v);
      }
      var m := p.node;
      match net.kinds[m]
      case Map(_, f) => Send(m, f(v));
      case Filter(_, keep) =>
        if keep(v) {
          Send(m, v);
        }
      case Merge(_, _) => Send(m, v);
      case Coalesce(_, f) =>
        if held[m].Some? {
          held := held[m := Some(f(held[m].value, v))];
        } else {
          next := next + 1;
          queue := Insert(queue, FlushEntry(net, next, m));
          held := held[m := Some(v)];
        }
      case Collect(_, step) =>
        var (b, state) := step(v, memory[m]);
        memory := memory[m := state];
        Send(m, b);
      case Listen(_) => heard := heard[m := heard[m] + [v]];
    }

    /** The draining loop of `close`: afterwards every node has fired exactly its meaning. */
    method Drain()
      requires Valid()
      modifies this
      ensures Valid() && queue == [] && base == old(base)
      ensures forall n :: 0 <= n < |net.kinds| ==> MeansAt(net, base, View(), n)
      ensures forall n :: 0 <= n < |net.kinds| && net.kinds[n].Collect? ==> StateAt(net, base, View(), n)
    {
      InvShape(net, base, View(), got);
      while queue != []
        invariant Valid() && base == old(base)
        invariant Wired(net) && QueueOk(net, queue, next)
        decreases QueueWork(net, queue)
      {
        DrainOne();
      }
      forall n | 0 <= n < |net.kinds|
        ensures MeansAt(net, base, View(), n)
        ensures net.kinds[n].Collect? ==> StateAt(net, base, View(), n)
      {
        DrainedMeans(net, base, View(), got, n);
        DrainedState(net, base, View(), got, n);
      }
    }

    /** Pop the least entry and run it. */
    method DrainOne()
      requires Valid() && Wired(net) && QueueOk(net, queue, next) && queue != []
      modifies this
      ensures Valid() && base == old(base) && Wired(net) && QueueOk(net, queue, next)
      ensures QueueWork(net, queue) < old(QueueWork(net, queue))
    {
      hide Inv, QueueOk, ClearsPending, Sent, Handled, SerialsBelow;
      InvShape(net, base, View(), got);
      ghost var s := View();
      var e := queue[0];
      match e.action {
        case Deliver(p, v) =>
          DeliverKeeps(net, base, s, got, p, v);
          DeliverProgress(net, s, p, v);
          queue := queue[1..];
          Handle(p, v);
          got := got[p := got[p] + [v]];
        case Flush =>
          var m := e.node;
          FlushKeeps(net, base, s, got);
          FlushProgress(net, s);
          queue := queue[1..];
          Send(m, held[m].value);
          held := held[m := None];
      }
    }

    /** The last actions, in order: each clears the firings of one node. */
    method RunLast()
      requires ClearsPending(fired, lastQ)
      modifies this`fired, this`lastQ
      ensures lastQ == [] && |fired| == |old(fired)| && forall n :: 0 <= n < |fired| ==> fired[n] == []
    {
      for i := 0 to |lastQ|
        invariant |fired| == |old(fired)| && lastQ == old(lastQ)
        invariant forall n :: 0 <= n < |fired| ==> fired[n] == [] || (fired[n] == old(fired)[n] && n !in lastQ[..i])
      {
        assert lastQ[i] in lastQ && lastQ[..i + 1] == lastQ[..i] + [lastQ[i]];
        fired := fired[lastQ[i] := []];
      }
      assert lastQ[..|lastQ|] == lastQ;
      lastQ := [];
    }

    /** `close`: drain, then run the last actions. Every listener has been called with its meaning, every
        accumulator holds the state its inputs lead to, and nothing is left over for the next transaction. */
    method Close()
      requires Valid()
      modifies this
      ensures Idle()
      ensures forall n :: 0 <= n < |net.kinds| && net.kinds[n].Listen? ==> HeardMeaning(old(base), n)
      ensures Wired(net) && Sized(net, View()) && |old(base).inputs| == |old(base).memory| == |old(base).heard| == |net.kinds|
      ensures forall n :: 0 <= n < |net.kinds| && net.kinds[n].Collect? ==> StateAt(net, old(base), View(), n)
    {
      Drain();
      forall n | 0 <= n < |net.kinds| && net.kinds[n].Coalesce?
        ensures held[n] == None
      {
        DrainedHeld(net, base, View(), got, n);
      }
      ghost var before, s := base, View();
      InvShape(net, base, s, got);
      RunLast();
      base := Base(seq(|net.kinds|, _ => []), memory, heard);
      got := NothingGot(net);
      StartOk(net, base, View(), got);
      assert forall n :: 0 <= n < |net.kinds| && net.kinds[n].Listen? ==> MeansAt(net, before, s, n);
      assert forall n :: 0 <= n < |net.kinds| && net.kinds[n].Collect? ==> StateAt(net, before, s, n);
    }

    /** Since `b`, listener `n` has been called with exactly its meaning. */
    ghost predicate HeardMeaning(b: Base<V>, n: nat)
      reads this
    {
      && Wired(net) && n < |net.kinds| && |b.inputs| == |b.memory| == |b.heard| == |net.kinds| == |heard|
      && heard[n] == b.heard[n] + Meaning(net, b.inputs, b.memory, n)
    }
  }
}
