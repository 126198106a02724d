/** A static network of streams over the rank-ordered transaction: what each node means, and what the
    scheduler does to compute it. */
module Network {
  import opened Scheduler
  import opened Wrappers

  /** One registered handler: input number `index` of node `node`. A merge has two, 0 for left. */
  datatype Port = Port(node: nat, index: nat)

  datatype Kind<!V> =
    | Sink
    | Map(source: nat, f: V -> V)
    | Filter(source: nat, p: V -> bool)
    | Merge(left: nat, right: nat)
    | Coalesce(source: nat, combine: (V, V) -> V)
    | Collect(source: nat, step: (V, V) -> (V, V))
    | Listen(source: nat)

  /** `leftRank` is the rank of a merge's helper node; `listeners` are in registration order. */
  datatype Net<!V> = Net(kinds: seq<Kind<V>>, rank: seq<nat>, leftRank: seq<nat>, listeners: seq<seq<Port>>)

  predicate IsPort<V>(net: Net<V>, p: Port) {
    && p.node < |net.kinds|
    && match net.kinds[p.node] {
         case Sink => false
         case Merge(_, _) => p.index < 2
         case _ => p.index == 0
       }
  }

  function Source<V>(net: Net<V>, p: Port): nat
    requires IsPort(net, p)
  {
    match net.kinds[p.node]
    case Map(src, _) => src
    case Filter(src, _) => src
    case Merge(l, r) => if p.index == 0 then l else r
    case Coalesce(src, _) => src
    case Collect(src, _) => src
    case Listen(src) => src
  }

  /** The rank of the node under which a handler's entries are queued. */
  function PortRank<V>(net: Net<V>, p: Port): nat
    requires IsPort(net, p) && |net.rank| == |net.leftRank| == |net.kinds|
  {
    if net.kinds[p.node].Merge? && p.index == 0 then net.leftRank[p.node] else net.rank[p.node]
  }

  /** Every handler is registered exactly once, at its source, which is a stream (a listener is not), and
      ranks increase along every link. */
  ghost predicate Wired<V>(net: Net<V>) {
    && |net.rank| == |net.leftRank| == |net.listeners| == |net.kinds|
    && (forall p :: IsPort(net, p) ==> Source(net, p) < |net.kinds| && p in net.listeners[Source(net, p)])
    && (forall p :: IsPort(net, p) ==> !net.kinds[Source(net, p)].Listen?)
    && (forall p :: IsPort(net, p) ==> net.rank[Source(net, p)] < PortRank(net, p) <= net.rank[p.node])
    && (forall m :: 0 <= m < |net.kinds| && net.kinds[m].Merge? ==> net.leftRank[m] < net.rank[m])
    && (forall n, p :: 0 <= n < |net.kinds| && p in net.listeners[n] ==> IsPort(net, p) && Source(net, p) == n)
    && (forall n :: 0 <= n < |net.kinds| ==> NoRepeats(net.listeners[n]))
  }

  ghost predicate NoRepeats(ps: seq<Port>) {
    forall i, j :: 0 <= i < j < |ps| ==> ps[i] != ps[j]
  }

  // ---- what a network means ----

  function MapAll<V>(f: V -> V, vs: seq<V>): seq<V> {
    if vs == [] then [] else MapAll(f, vs[..|vs| - 1]) + [f(vs[|vs| - 1])]
  }

  function FilterAll<V>(p: V -> bool, vs: seq<V>): seq<V> {
    if vs == [] then [] else FilterAll(p, vs[..|vs| - 1]) + if p(vs[|vs| - 1]) then [vs[|vs| - 1]] else []
  }

  /** The left fold of a non-empty list. */
  function Fold<V>(f: (V, V) -> V, vs: seq<V>): V
    requires vs != []
  {
    if |vs| == 1 then vs[0] else f(Fold(f, vs[..|vs| - 1]), vs[|vs| - 1])
  }

  /** The state after a list of inputs, and the outputs on the way. */
  function Scan<V>(step: (V, V) -> (V, V), init: V, vs: seq<V>): (r: (V, seq<V>))
    ensures |r.1| == |vs|
  {
    if vs == [] then (init, [])
    else
      var (s, outs) := Scan(step, init, vs[..|vs| - 1]);
      var (b, s') := step(vs[|vs| - 1], s);
      (s', outs + [b])
  }

  /** The firings of node `n` in a transaction whose sinks were sent `inputs`. */
  ghost function Meaning<V>(net: Net<V>, inputs: seq<seq<V>>, memory: seq<V>, n: nat): seq<V>
    requires Wired(net) && n < |net.kinds| && |inputs| == |memory| == |net.kinds|
    decreases net.rank[n]
  {
    assert forall p :: IsPort(net, p) && p.node == n ==> net.rank[Source(net, p)] < net.rank[n];
    match net.kinds[n]
    case Sink => inputs[n]
    case Map(src, f) => assert Source(net, Port(n, 0)) == src; MapAll(f, Meaning(net, inputs, memory, src))
    case Filter(src, p) => assert Source(net, Port(n, 0)) == src; FilterAll(p, Meaning(net, inputs, memory, src))
    case Merge(l, r) =>
      assert Source(net, Port(n, 0)) == l && Source(net, Port(n, 1)) == r;
      Meaning(net, inputs, memory, l) + Meaning(net, inputs, memory, r)
    case Coalesce(src, f) =>
      assert Source(net, Port(n, 0)) == src;
      var vs := Meaning(net, inputs, memory, src);
      if vs == [] then [] else [Fold(f, vs)]
    case Collect(src, step) =>
      assert Source(net, Port(n, 0)) == src; Scan(step, memory[n], Meaning(net, inputs, memory, src)).1
    case Listen(src) => assert Source(net, Port(n, 0)) == src; Meaning(net, inputs, memory, src)
  }

  // ---- what the scheduler does ----

  datatype Act<+V> = Deliver(port: Port, value: V) | Flush

  /** `fired` and `heard` in order of firing; `held` is `coalesce`'s `p_state`, `memory` the state of
      `collect`. */
  datatype Sim<V> = Sim(queue: Queue<Act<V>>, next: nat, fired: seq<seq<V>>, held: seq<Option<V>>, memory: seq<V>,
                        heard: seq<seq<V>>)

  predicate Sized<V>(net: Net<V>, s: Sim<V>) {
    |s.fired| == |s.held| == |s.memory| == |s.heard| == |net.kinds|
  }

  function DeliverEntry<V>(net: Net<V>, serial: nat, p: Port, v: V): Entry<Act<V>>
    requires Wired(net) && IsPort(net, p)
  {
    Entry(PortRank(net, p), serial, p.node, Deliver(p, v))
  }

  function FlushEntry<V>(net: Net<V>, serial: nat, m: nat): Entry<Act<V>>
    requires Wired(net) && m < |net.kinds|
  {
    Entry(net.rank[m], serial, m, Flush)
  }

  /** Queue one delivery of `v` to each of `ports`. */
  function Post<V>(net: Net<V>, q: Queue<Act<V>>, next: nat, ports: seq<Port>, v: V): Queue<Act<V>>
    requires Wired(net) && forall p :: p in ports ==> IsPort(net, p)
    decreases ports
  {
    if ports == [] then q
    else Post(net, Insert(q, DeliverEntry(net, next + 1, ports[0], v)), next + 1, ports[1..], v)
  }

  /** `send`: record the firing and queue it for every listener. */
  function Send<V>(net: Net<V>, s: Sim<V>, n: nat, v: V): (t: Sim<V>)
    requires Wired(net) && Sized(net, s) && n < |net.kinds|
    ensures Sized(net, t)
  {
    s.(fired := s.fired[n := s.fired[n] + [v]],
       queue := Post(net, s.queue, s.next, net.listeners[n], v),
       next := s.next + |net.listeners[n]|)
  }

  /** The handler of a port, run on one value. */
  function Handle<V>(net: Net<V>, s: Sim<V>, p: Port, v: V): (t: Sim<V>)
    requires Wired(net) && Sized(net, s) && IsPort(net, p)
    ensures Sized(net, t)
  {
    var m := p.node;
    match net.kinds[m]
    case Map(_, f) => Send(net, s, m, f(v))
    case Filter(_, keep) => if keep(v) then Send(net, s, m, v) else s
    case Merge(_, _) => Send(net, s, m, v)
    case Coalesce(_, f) =>
      if s.held[m].Some? then s.(held := s.held[m := Some(f(s.held[m].value, v))])
      else s.(queue := Insert(s.queue, FlushEntry(net, s.next + 1, m)), next := s.next + 1,
              held := s.held[m := Some(v)])
    case Collect(_, step) =>
      var (b, m') := step(v, s.memory[m]);
      Send(net, s.(memory := s.memory[m := m']), m, b)
    case Listen(_) => s.(heard := s.heard[m := s.heard[m] + [v]])
  }

  /** `coalesce`'s second entry: send what was held and hold nothing. */
  function FlushHeld<V>(net: Net<V>, s: Sim<V>, m: nat): (t: Sim<V>)
    requires Wired(net) && Sized(net, s) && m < |net.kinds| && s.held[m].Some?
    ensures Sized(net, t)
  {
    Send(net, s, m, s.held[m].value).(held := s.held[m := None])
  }
}
