/** What the firings of each kind of node are, said of the values themselves. */
module NetworkMeaning {
  import opened Scheduler
  import opened Wrappers
  import opened Network
  import opened Sequences

  /** `acc` is the run of intermediate results when `f` combines `vs` from the left. */
  ghost predicate Combines<V>(f: (V, V) -> V, vs: seq<V>, acc: seq<V>) {
    vs != [] && |acc| == |vs| && acc[0] == vs[0] && forall i :: 0 <= i < |vs| - 1 ==> acc[i + 1] == f(acc[i], vs[i + 1])
  }

  /** `states` are the states before and after each of `vs`, with `outs` the outputs on the way. */
  ghost predicate Steps<V>(step: (V, V) -> (V, V), vs: seq<V>, states: seq<V>, outs: seq<V>) {
    && |states| == |vs| + 1 && |outs| == |vs|
    && forall i :: 0 <= i < |vs| ==> (outs[i], states[i + 1]) == step(vs[i], states[i])
  }

  lemma {:induction false} MapAllAt<V>(f: V -> V, vs: seq<V>)
    ensures |MapAll(f, vs)| == |vs| && forall i :: 0 <= i < |vs| ==> MapAll(f, vs)[i] == f(vs[i])
  {
    if vs != [] {
      MapAllAt(f, vs[..|vs| - 1]);
    }
  }

  lemma {:induction false} FilterAllPicks<V>(p: V -> bool, vs: seq<V>) returns (ks: seq<nat>)
    ensures Picks(vs, ks, FilterAll(p, vs)) && forall i :: 0 <= i < |vs| ==> (i in ks <==> p(vs[i]))
  {
    if vs == [] {
      ks := [];
    } else {
      var ls := FilterAllPicks(p, vs[..|vs| - 1]);
      PicksLast(vs, ls, FilterAll(p, vs[..|vs| - 1]));
      ks := if p(vs[|vs| - 1]) then ls + [|vs| - 1] else ls;
    }
  }

  lemma {:induction false} FoldCombines<V>(f: (V, V) -> V, vs: seq<V>) returns (acc: seq<V>)
    requires vs != []
    ensures Combines(f, vs, acc) && Fold(f, vs) == acc[|acc| - 1]
  {
    if |vs| == 1 {
      acc := vs;
    } else {
      acc := FoldCombines(f, vs[..|vs| - 1]);
      acc := acc + [Fold(f, vs)];
    }
  }

  lemma {:induction false} ScanSteps<V>(step: (V, V) -> (V, V), init: V, vs: seq<V>) returns (states: seq<V>)
    ensures Steps(step, vs, states, Scan(step, init, vs).1)
    ensures states[0] == init && states[|vs|] == Scan(step, init, vs).0
  {
    if vs == [] {
      states := [init];
    } else {
      states := ScanSteps(step, init, vs[..|vs| - 1]);
      states := states + [Scan(step, init, vs).0];
    }
  }

  /** A node other than a sink or a merge listens at one port, to its source. */
  lemma OneSource<V>(net: Net<V>, n: nat)
    requires Wired(net) && n < |net.kinds| && !net.kinds[n].Sink? && !net.kinds[n].Merge?
    ensures net.kinds[n].source < |net.kinds| && net.rank[net.kinds[n].source] < net.rank[n]
    ensures IsPort(net, Port(n, 0)) && Source(net, Port(n, 0)) == net.kinds[n].source
  {
    assert IsPort(net, Port(n, 0)) && Source(net, Port(n, 0)) == net.kinds[n].source;
  }

  lemma MeaningOfSink<V>(net: Net<V>, inputs: seq<seq<V>>, memory: seq<V>, n: nat)
    requires Wired(net) && n < |net.kinds| && |inputs| == |memory| == |net.kinds| && net.kinds[n].Sink?
    ensures Meaning(net, inputs, memory, n) == inputs[n]
  {}

  /** A map fires the image of each value of its source, in order. */
  lemma MeaningOfMap<V>(net: Net<V>, inputs: seq<seq<V>>, memory: seq<V>, n: nat)
    requires Wired(net) && n < |net.kinds| && |inputs| == |memory| == |net.kinds| && net.kinds[n].Map?
    ensures net.kinds[n].source < |net.kinds|
    ensures var out, vs := Meaning(net, inputs, memory, n), Meaning(net, inputs, memory, net.kinds[n].source);
            |out| == |vs| && forall i :: 0 <= i < |vs| ==> out[i] == net.kinds[n].f(vs[i])
  {
    OneSource(net, n);
    MapAllAt(net.kinds[n].f, Meaning(net, inputs, memory, net.kinds[n].source));
  }

  /** A filter fires the values that pass, in order, and no others. */
  lemma MeaningOfFilter<V>(net: Net<V>, inputs: seq<seq<V>>, memory: seq<V>, n: nat) returns (ks: seq<nat>)
    requires Wired(net) && n < |net.kinds| && |inputs| == |memory| == |net.kinds| && net.kinds[n].Filter?
    ensures net.kinds[n].source < |net.kinds|
    ensures var out, vs := Meaning(net, inputs, memory, n), Meaning(net, inputs, memory, net.kinds[n].source);
            Picks(vs, ks, out) && forall i :: 0 <= i < |vs| ==> (i in ks <==> net.kinds[n].p(vs[i]))
  {
    OneSource(net, n);
    ks := FilterAllPicks(net.kinds[n].p, Meaning(net, inputs, memory, net.kinds[n].source));
  }

  /** A merge fires everything from the left, then everything from the right. */
  lemma MeaningOfMerge<V>(net: Net<V>, inputs: seq<seq<V>>, memory: seq<V>, n: nat)
    requires Wired(net) && n < |net.kinds| && |inputs| == |memory| == |net.kinds| && net.kinds[n].Merge?
    ensures net.kinds[n].left < |net.kinds| && net.kinds[n].right < |net.kinds|
    ensures Meaning(net, inputs, memory, n)
         == Meaning(net, inputs, memory, net.kinds[n].left) + Meaning(net, inputs, memory, net.kinds[n].right)
  {
    assert IsPort(net, Port(n, 0)) && IsPort(net, Port(n, 1));
    assert Source(net, Port(n, 0)) == net.kinds[n].left && Source(net, Port(n, 1)) == net.kinds[n].right;
  }

  /** A coalescing stream fires at most once: its values combined from the left, the first one leftmost. */
  lemma MeaningOfCoalesce<V>(net: Net<V>, inputs: seq<seq<V>>, memory: seq<V>, n: nat) returns (acc: seq<V>)
    requires Wired(net) && n < |net.kinds| && |inputs| == |memory| == |net.kinds| && net.kinds[n].Coalesce?
    ensures net.kinds[n].source < |net.kinds|
    ensures var out, vs := Meaning(net, inputs, memory, n), Meaning(net, inputs, memory, net.kinds[n].source);
            if vs == [] then out == [] else Combines(net.kinds[n].combine, vs, acc) && out == [acc[|vs| - 1]]
  {
    OneSource(net, n);
    acc := [];
    if Meaning(net, inputs, memory, net.kinds[n].source) != [] {
      acc := FoldCombines(net.kinds[n].combine, Meaning(net, inputs, memory, net.kinds[n].source));
    }
  }

  /** A collecting node fires the outputs of its state machine, started in its state at the outset. */
  lemma MeaningOfCollect<V>(net: Net<V>, inputs: seq<seq<V>>, memory: seq<V>, n: nat) returns (states: seq<V>)
    requires Wired(net) && n < |net.kinds| && |inputs| == |memory| == |net.kinds| && net.kinds[n].Collect?
    ensures net.kinds[n].source < |net.kinds|
    ensures var vs := Meaning(net, inputs, memory, net.kinds[n].source);
            && Steps(net.kinds[n].step, vs, states, Meaning(net, inputs, memory, n)) && states[0] == memory[n]
            && states[|vs|] == Scan(net.kinds[n].step, memory[n], vs).0
  {
    OneSource(net, n);
    states := ScanSteps(net.kinds[n].step, memory[n], Meaning(net, inputs, memory, net.kinds[n].source));
  }

  lemma MeaningOfListener<V>(net: Net<V>, inputs: seq<seq<V>>, memory: seq<V>, n: nat)
    requires Wired(net) && n < |net.kinds| && |inputs| == |memory| == |net.kinds| && net.kinds[n].Listen?
    ensures net.kinds[n].source < |net.kinds|
    ensures Meaning(net, inputs, memory, n) == Meaning(net, inputs, memory, net.kinds[n].source)
  {
    OneSource(net, n);
  }

  /** Merging with a combining function fires at most once: the values of both sides combined from the left,
      every left one before every right one; with one firing on each side, the left one is the first argument. */
  lemma MergeWithMeaning<V>(net: Net<V>, inputs: seq<seq<V>>, memory: seq<V>, n: nat) returns (acc: seq<V>)
    requires Wired(net) && n < |net.kinds| && |inputs| == |memory| == |net.kinds| && net.kinds[n].Coalesce?
    requires net.kinds[n].source < |net.kinds| && net.kinds[net.kinds[n].source].Merge?
    ensures var m := net.kinds[net.kinds[n].source]; m.left < |net.kinds| && m.right < |net.kinds|
    ensures var m, out := net.kinds[net.kinds[n].source], Meaning(net, inputs, memory, n);
            var l, r := Meaning(net, inputs, memory, m.left), Meaning(net, inputs, memory, m.right);
            && (if l + r == [] then out == []
                else Combines(net.kinds[n].combine, l + r, acc) && out == [acc[|l + r| - 1]])
            && (|l| == |r| == 1 ==> out == [net.kinds[n].combine(l[0], r[0])])
            && (|l| == 1 && r == [] ==> out == l) && (l == [] && |r| == 1 ==> out == r)
  {
    MeaningOfMerge(net, inputs, memory, net.kinds[n].source);
    acc := MeaningOfCoalesce(net, inputs, memory, n);
  }

  // ---- what a send and a handler do ----

  /** The entries of a send: one for each listener, numbered on from `next`, under the rank of the listener's
      node or, for the left side of a merge, of its helper node. */
  function Deliveries<V>(net: Net<V>, next: nat, ports: seq<Port>, v: V): (es: seq<Entry<Act<V>>>)
    requires |net.rank| == |net.leftRank| == |net.kinds| && forall p :: p in ports ==> p.node < |net.kinds|
    ensures |es| == |ports|
    ensures forall i :: 0 <= i < |ports| ==> es[i].serial == next + 1 + i && es[i].node == ports[i].node
    ensures forall i :: 0 <= i < |ports| ==> es[i].action == Deliver(ports[i], v)
    ensures forall i :: 0 <= i < |ports| ==>
              var m := ports[i].node;
              es[i].rank == if net.kinds[m].Merge? && ports[i].index == 0 then net.leftRank[m] else net.rank[m]
    decreases ports
  {
    if ports == [] then []
    else
      var m := ports[0].node;
      var rank := if net.kinds[m].Merge? && ports[0].index == 0 then net.leftRank[m] else net.rank[m];
      assert forall p :: p in ports[1..] ==> p in ports;
      [Entry(rank, next + 1, m, Deliver(ports[0], v))] + Deliveries(net, next + 1, ports[1..], v)
  }

  /** A send by `n` queues exactly one entry for each of its listeners and records one firing. */
  ghost predicate Sent<V>(net: Net<V>, s: Sim<V>, t: Sim<V>, n: nat, v: V)
    requires Wired(net) && Sized(net, s) && n < |net.kinds|
  {
    && t.fired == s.fired[n := s.fired[n] + [v]]
    && multiset(t.queue) == multiset(s.queue) + multiset(Deliveries(net, s.next, net.listeners[n], v))
    && t.held == s.held && t.heard == s.heard
  }

  lemma InsertBelow<A>(q: Queue<A>, next: nat, e: Entry<A>)
    requires SerialsBelow(q, next + 1) && e.serial == next + 1
    ensures multiset(Insert(q, e)) == multiset(q) + multiset{e} && SerialsBelow(Insert(q, e), next + 2)
  {
    InsertContents(q, e);
  }

  lemma {:induction false} PostContents<V>(net: Net<V>, q: Queue<Act<V>>, next: nat, ports: seq<Port>, v: V)
    requires Wired(net) && SerialsBelow(q, next + 1) && forall p :: p in ports ==> IsPort(net, p)
    ensures multiset(Post(net, q, next, ports, v)) == multiset(q) + multiset(Deliveries(net, next, ports, v))
    decreases ports
  {
    hide SerialsBelow, Insert;
    if ports != [] {
      var e := DeliverEntry(net, next + 1, ports[0], v);
      InsertBelow(q, next, e);
      PostContents(net, Insert(q, e), next + 1, ports[1..], v);
      assert Deliveries(net, next, ports, v) == [e] + Deliveries(net, next + 1, ports[1..], v);
    }
  }

  lemma SendSpelt<V>(net: Net<V>, s: Sim<V>, memory: seq<V>, n: nat, v: V)
    requires Wired(net) && Sized(net, s) && n < |net.kinds| && SerialsBelow(s.queue, s.next + 1) && |memory| == |s.memory|
    ensures var t := Send(net, s.(memory := memory), n, v); Sent(net, s, t, n, v) && t.memory == memory
  {
    PostContents(net, s.queue, s.next, net.listeners[n], v);
    hide Post, SerialsBelow;
  }

  /** What the handler of port `p` does with `v`, for every kind of node. */
  ghost predicate Handled<V>(net: Net<V>, s: Sim<V>, t: Sim<V>, p: Port, v: V)
    requires Wired(net) && Sized(net, s) && p.node < |net.kinds|
  {
    var m, k := p.node, net.kinds[p.node];
    && (k.Map? ==> Sent(net, s, t, m, k.f(v)) && t.memory == s.memory)
    && (k.Filter? ==> if k.p(v) then Sent(net, s, t, m, v) && t.memory == s.memory else t == s)
    && (k.Merge? ==> Sent(net, s, t, m, v) && t.memory == s.memory)
    && (k.Collect? ==>
          var (b, state) := k.step(v, s.memory[m]);
          Sent(net, s, t, m, b) && t.memory == s.memory[m := state])
    && (k.Coalesce? && s.held[m].Some? ==> t == s.(held := s.held[m := Some(k.combine(s.held[m].value, v))]))
    && (k.Coalesce? && s.held[m].None? ==>
          && t == s.(held := s.held[m := Some(v)], next := s.next + 1, queue := t.queue)
          && multiset(t.queue) == multiset(s.queue) + multiset{Entry(net.rank[m], s.next + 1, m, Flush)})
    && (k.Listen? ==> t == s.(heard := s.heard[m := s.heard[m] + [v]]))
  }

  lemma HandleSpelt<V>(net: Net<V>, s: Sim<V>, p: Port, v: V)
    requires Wired(net) && Sized(net, s) && IsPort(net, p) && SerialsBelow(s.queue, s.next + 1)
    ensures Handled(net, s, Handle(net, s, p, v), p, v)
  {
    hide Sent, SerialsBelow, Insert, Send, Wired;
    var m := p.node;
    match net.kinds[m]
    case Map(_, f) => SendSpelt(net, s, s.memory, m, f(v));
    case Filter(_, _) => SendSpelt(net, s, s.memory, m, v);
    case Merge(_, _) => SendSpelt(net, s, s.memory, m, v);
    case Collect(_, step) => SendSpelt(net, s, s.memory[m := step(v, s.memory[m]).1], m, step(v, s.memory[m]).0);
    case Coalesce(_, _) => InsertBelow(s.queue, s.next, FlushEntry(net, s.next + 1, m));
    case Listen(_) =>
  }
}
