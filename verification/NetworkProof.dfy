/** Why draining the queue computes the meaning of the network: what each processed entry keeps. */
module NetworkProof {
  import opened Scheduler
  import opened Wrappers
  import opened Network

  // ---- the queue ----

  /** The values still queued for port `p`, in order. */
  function Pending<V>(q: Queue<Act<V>>, p: Port): seq<V> {
    if q == [] then []
    else (if q[0].action.Deliver? && q[0].action.port == p then [q[0].action.value] else []) + Pending(q[1..], p)
  }

  /** How many flushes of node `m` are queued. */
  function Flushes<V>(q: Queue<Act<V>>, m: nat): nat {
    if q == [] then 0
    else (if q[0].action.Flush? && q[0].node == m then 1 else 0) + Flushes(q[1..], m)
  }

  ghost predicate AtLeast<V>(q: Queue<Act<V>>, r: nat) {
    forall e :: e in q ==> e.rank >= r
  }

  ghost predicate EntryOk<V>(net: Net<V>, e: Entry<Act<V>>)
    requires Wired(net)
  {
    match e.action
    case Deliver(p, _) => IsPort(net, p) && e.node == p.node && e.rank == PortRank(net, p)
    case Flush => e.node < |net.kinds| && net.kinds[e.node].Coalesce? && e.rank == net.rank[e.node]
  }

  ghost predicate QueueOk<V>(net: Net<V>, q: Queue<Act<V>>, next: nat)
    requires Wired(net)
  {
    Sorted(q) && SerialsBelow(q, next + 1) && forall e :: e in q ==> EntryOk(net, e)
  }

  lemma {:induction false} NothingPending<V>(q: Queue<Act<V>>, p: Port)
    requires forall e :: e in q && e.action.Deliver? ==> e.action.port != p
    ensures Pending(q, p) == []
  {
    if q != [] {
      assert q[0] in q;
      NothingPending(q[1..], p);
    }
  }

  lemma TailOk<V>(net: Net<V>, q: Queue<Act<V>>, next: nat)
    requires Wired(net) && QueueOk(net, q, next) && q != []
    ensures QueueOk(net, q[1..], next) && q[0].serial <= next
  {
    assert q[0] in q;
  }

  /** A delivery inserted at the front finds nothing pending for its port: what is queued ranks higher. */
  lemma NothingAhead<V>(net: Net<V>, q: Queue<Act<V>>, next: nat, e: Entry<Act<V>>)
    requires Wired(net) && QueueOk(net, q, next) && EntryOk(net, e) && e.serial == next + 1
    requires q != [] && Before(e, q[0]) && e.action.Deliver?
    ensures Pending(q, e.action.port) == []
  {
    forall f | f in q && f.action.Deliver?
      ensures f.action.port != e.action.port
    {
      assert EntryOk(net, f) && q[0] in q && (f == q[0] || Before(q[0], f));
    }
    NothingPending(q, e.action.port);
  }

  lemma {:induction false} InsertPending<V>(net: Net<V>, q: Queue<Act<V>>, next: nat, e: Entry<Act<V>>, p: Port)
    requires Wired(net) && QueueOk(net, q, next) && EntryOk(net, e) && e.serial == next + 1
    ensures Pending(Insert(q, e), p)
         == Pending(q, p) + if e.action.Deliver? && e.action.port == p then [e.action.value] else []
  {
    hide QueueOk, EntryOk, IsPort;
    if q == [] {
      assert Insert(q, e) == [e] && [e][1..] == [];
    } else if Before(e, q[0]) {
      assert ([e] + q)[1..] == q;
      if e.action.Deliver? && e.action.port == p {
        NothingAhead(net, q, next, e);
      }
    } else {
      assert q[0] in q;
      TailOk(net, q, next);
      InsertPending(net, q[1..], next, e, p);
      assert Insert(q, e) == [q[0]] + Insert(q[1..], e);
    }
  }

  lemma {:induction false} InsertFlushes<V>(q: Queue<Act<V>>, next: nat, e: Entry<Act<V>>, m: nat)
    requires SerialsBelow(q, next + 1) && e.serial == next + 1
    ensures Flushes(Insert(q, e), m) == Flushes(q, m) + if e.action.Flush? && e.node == m then 1 else 0
  {
    if q == [] {
      assert Insert(q, e) == [e] && [e][1..] == [];
    } else if Before(e, q[0]) {
      assert ([e] + q)[1..] == q;
    } else {
      assert q[0] in q;
      InsertFlushes(q[1..], next, e, m);
      assert Insert(q, e) == [q[0]] + Insert(q[1..], e);
    }
  }

  lemma InsertOk<V>(net: Net<V>, q: Queue<Act<V>>, next: nat, e: Entry<Act<V>>)
    requires Wired(net) && QueueOk(net, q, next) && EntryOk(net, e) && e.serial == next + 1
    ensures QueueOk(net, Insert(q, e), next + 1)
    ensures forall f :: f in Insert(q, e) <==> f in q || f == e
  {
    InsertContents(q, e);
    InsertSorted(q, e);
  }

  lemma {:induction false} PostOk<V>(net: Net<V>, q: Queue<Act<V>>, next: nat, ports: seq<Port>, v: V)
    requires Wired(net) && QueueOk(net, q, next) && forall p :: p in ports ==> IsPort(net, p)
    ensures QueueOk(net, Post(net, q, next, ports, v), next + |ports|)
    decreases ports
  {
    if ports != [] {
      hide QueueOk, IsPort;
      var e := DeliverEntry(net, next + 1, ports[0], v);
      DeliverEntryOk(net, next + 1, ports[0], v);
      InsertOk(net, q, next, e);
      PostOk(net, Insert(q, e), next + 1, ports[1..], v);
    }
  }

  lemma {:induction false} PostMember<V>(net: Net<V>, q: Queue<Act<V>>, next: nat, ports: seq<Port>, v: V, f: Entry<Act<V>>)
    requires Wired(net) && (forall p :: p in ports ==> IsPort(net, p)) && f in Post(net, q, next, ports, v)
    ensures f in q || (f.action.Deliver? && f.action.port in ports)
    decreases ports
  {
    hide IsPort;
    if ports != [] {
      var e := DeliverEntry(net, next + 1, ports[0], v);
      PostMember(net, Insert(q, e), next + 1, ports[1..], v, f);
      if f in Insert(q, e) {
        InsertMember(q, e, f);
      }
    }
  }

  lemma DeliverEntryOk<V>(net: Net<V>, serial: nat, p: Port, v: V)
    requires Wired(net) && IsPort(net, p)
    ensures EntryOk(net, DeliverEntry(net, serial, p, v))
  {}

  lemma {:induction false} PostPending<V>(net: Net<V>, q: Queue<Act<V>>, next: nat, ports: seq<Port>, v: V, p: Port)
    requires Wired(net) && QueueOk(net, q, next) && NoRepeats(ports) && forall x :: x in ports ==> IsPort(net, x)
    ensures Pending(Post(net, q, next, ports, v), p) == Pending(q, p) + if p in ports then [v] else []
    decreases ports
  {
    hide QueueOk, IsPort, Pending;
    if ports != [] {
      var e := DeliverEntry(net, next + 1, ports[0], v);
      DeliverEntryOk(net, next + 1, ports[0], v);
      InsertOk(net, q, next, e);
      InsertPending(net, q, next, e, p);
      PostPending(net, Insert(q, e), next + 1, ports[1..], v, p);
      assert p in ports <==> p == ports[0] || p in ports[1..];
      assert p == ports[0] ==> p !in ports[1..];
    }
  }

  lemma {:induction false} PostFlushes<V>(net: Net<V>, q: Queue<Act<V>>, next: nat, ports: seq<Port>, v: V, m: nat)
    requires Wired(net) && SerialsBelow(q, next + 1) && forall p :: p in ports ==> IsPort(net, p)
    ensures Flushes(Post(net, q, next, ports, v), m) == Flushes(q, m)
    decreases ports
  {
    hide Flushes, IsPort;
    if ports != [] {
      var e := DeliverEntry(net, next + 1, ports[0], v);
      InsertFlushes(q, next, e, m);
      forall f | f in Insert(q, e)
        ensures f.serial < next + 2
      {
        InsertMember(q, e, f);
      }
      PostFlushes(net, Insert(q, e), next + 1, ports[1..], v, m);
    }
  }

  /** What `Post` does to the queue, for every port and node. */
  lemma PostFacts<V>(net: Net<V>, q: Queue<Act<V>>, next: nat, ports: seq<Port>, v: V)
    requires Wired(net) && QueueOk(net, q, next) && NoRepeats(ports) && forall p :: p in ports ==> IsPort(net, p)
    ensures var r := Post(net, q, next, ports, v);
            && QueueOk(net, r, next + |ports|)
            && (forall p :: Pending(r, p) == Pending(q, p) + if p in ports then [v] else [])
            && (forall m :: Flushes(r, m) == Flushes(q, m))
            && (forall f :: f in r ==> f in q || (f.action.Deliver? && f.action.port in ports))
  {
    hide IsPort, Pending, Flushes, Post;
    PostOk(net, q, next, ports, v);
    var r := Post(net, q, next, ports, v);
    forall p
      ensures Pending(r, p) == Pending(q, p) + if p in ports then [v] else []
    {
      PostPending(net, q, next, ports, v, p);
    }
    forall f | f in r
      ensures f in q || (f.action.Deliver? && f.action.port in ports)
    {
      PostMember(net, q, next, ports, v, f);
    }
    forall m
      ensures Flushes(r, m) == Flushes(q, m)
    {
      PostFlushes(net, q, next, ports, v, m);
    }
  }

  lemma PopOk<V>(net: Net<V>, q: Queue<Act<V>>, next: nat)
    requires Wired(net) && QueueOk(net, q, next) && q != []
    ensures QueueOk(net, q[1..], next)
    ensures forall f :: f in q <==> f in q[1..] || f == q[0]
    ensures forall r :: AtLeast(q, r) ==> AtLeast(q[1..], r)
    ensures AtLeast(q, q[0].rank)
  {
    assert q == [q[0]] + q[1..];
    forall f | f in q
      ensures f.rank >= q[0].rank
    {
      assert f == q[0] || Before(q[0], f);
    }
  }

  // ---- what one processed entry does ----

  /** From queue `q` to `r` only deliveries of `outs` by node `m`, and flushes of `m`, were added. */
  ghost predicate Moved<V>(net: Net<V>, q: Queue<Act<V>>, r: Queue<Act<V>>, next: nat, m: nat, outs: seq<V>)
    requires Wired(net)
  {
    && QueueOk(net, r, next)
    && (forall f :: f in r ==> f in q || (f.action.Flush? && f.node == m)
                               || (f.action.Deliver? && IsPort(net, f.action.port) && Source(net, f.action.port) == m))
    && (forall x :: x != m ==> Flushes(r, x) == Flushes(q, x))
    && (forall p :: Pending(r, p) == Pending(q, p) + if IsPort(net, p) && Source(net, p) == m then outs else [])
  }

  /** From `s` to `t` only node `m` changed, and fired `outs`. */
  ghost predicate OnlyNode<V>(net: Net<V>, s: Sim<V>, t: Sim<V>, m: nat, outs: seq<V>) {
    && Sized(net, s) && Sized(net, t) && m < |net.kinds|
    && t.fired == s.fired[m := s.fired[m] + outs]
    && (forall x :: 0 <= x < |net.kinds| && x != m ==>
          t.held[x] == s.held[x] && t.memory[x] == s.memory[x] && t.heard[x] == s.heard[x])
  }

  /** What the handler of a port makes its node fire. */
  function Outs<V>(k: Kind<V>, memory: V, v: V): seq<V> {
    match k
    case Map(_, f) => [f(v)]
    case Filter(_, keep) => if keep(v) then [v] else []
    case Collect(_, step) => [step(v, memory).0]
    case Merge(_, _) => [v]
    case _ => []
  }

  lemma SendFacts<V>(net: Net<V>, s: Sim<V>, m: nat, v: V)
    requires Wired(net) && Sized(net, s) && m < |net.kinds| && QueueOk(net, s.queue, s.next)
    ensures var t := Send(net, s, m, v); Moved(net, s.queue, t.queue, t.next, m, [v]) && OnlyNode(net, s, t, m, [v])
    ensures var t := Send(net, s, m, v); t.held == s.held && t.memory == s.memory && t.heard == s.heard
    ensures forall x :: Flushes(Send(net, s, m, v).queue, x) == Flushes(s.queue, x)
  {
    PostFacts(net, s.queue, s.next, net.listeners[m], v);
    forall p
      ensures p in net.listeners[m] <==> IsPort(net, p) && Source(net, p) == m
    {}
  }

  lemma HandleFacts<V>(net: Net<V>, s: Sim<V>, p: Port, v: V)
    requires Wired(net) && Sized(net, s) && IsPort(net, p) && QueueOk(net, s.queue, s.next)
    ensures var t, outs := Handle(net, s, p, v), Outs(net.kinds[p.node], s.memory[p.node], v);
            Moved(net, s.queue, t.queue, t.next, p.node, outs) && OnlyNode(net, s, t, p.node, outs)
  {
    hide Moved, OnlyNode, QueueOk, Wired;
    var m := p.node;
    match net.kinds[m]
    case Map(_, f) => SendFacts(net, s, m, f(v));
    case Filter(_, keep) =>
      if keep(v) {
        SendFacts(net, s, m, v);
      } else {
        Quiet(net, s, s, m);
      }
    case Merge(_, _) => SendFacts(net, s, m, v);
    case Coalesce(_, f) =>
      Quiet(net, s, Handle(net, s, p, v).(queue := s.queue), m);
      if s.held[m].None? {
        FlushQueued(net, s.queue, s.next, m, FlushEntry(net, s.next + 1, m));
      }
      QuietQueue(net, s, Handle(net, s, p, v), m);
    case Collect(_, step) =>
      var (b, m') := step(v, s.memory[m]);
      SendFacts(net, s.(memory := s.memory[m := m']), m, b);
      Recalled(net, s, m', Handle(net, s, p, v), m, [b]);
    case Listen(_) => Quiet(net, s, Handle(net, s, p, v), m);
  }

  /** A node that fires nothing changes no other node. */
  lemma Quiet<V>(net: Net<V>, s: Sim<V>, t: Sim<V>, m: nat)
    requires Wired(net) && Sized(net, s) && Sized(net, t) && m < |net.kinds| && QueueOk(net, s.queue, s.next)
    requires t.fired == s.fired && t.queue == s.queue
    requires forall x :: 0 <= x < |net.kinds| && x != m ==>
               t.held[x] == s.held[x] && t.memory[x] == s.memory[x] && t.heard[x] == s.heard[x]
    ensures OnlyNode(net, s, t, m, []) && Moved(net, s.queue, s.queue, s.next, m, [])
  {
    assert s.fired[m] + [] == s.fired[m];
    assert s.fired[m := s.fired[m] + []] == s.fired;
    forall p
      ensures Pending(s.queue, p) == Pending(s.queue, p) + []
    {}
    MovedQuietly(net, s.queue, s.queue, s.next, m);
  }

  lemma QuietQueue<V>(net: Net<V>, s: Sim<V>, t: Sim<V>, m: nat)
    requires OnlyNode(net, s, t.(queue := s.queue), m, [])
    ensures OnlyNode(net, s, t, m, [])
  {}

  lemma Recalled<V>(net: Net<V>, s: Sim<V>, memory: V, t: Sim<V>, m: nat, outs: seq<V>)
    requires Sized(net, s) && m < |net.kinds| && OnlyNode(net, s.(memory := s.memory[m := memory]), t, m, outs)
    ensures OnlyNode(net, s, t, m, outs)
  {
    var r := s.(memory := s.memory[m := memory]);
    assert r.fired == s.fired && r.held == s.held && r.heard == s.heard;
    assert forall x :: 0 <= x < |net.kinds| && x != m ==> r.memory[x] == s.memory[x];
  }

  lemma FlushQueued<V>(net: Net<V>, q: Queue<Act<V>>, next: nat, m: nat, e: Entry<Act<V>>)
    requires Wired(net) && m < |net.kinds| && net.kinds[m].Coalesce? && QueueOk(net, q, next)
    requires e == FlushEntry(net, next + 1, m)
    ensures Moved(net, q, Insert(q, e), next + 1, m, [])
    ensures Flushes(Insert(q, e), m) == Flushes(q, m) + 1
    ensures forall f :: f in Insert(q, e) <==> f in q || f == e
  {
    hide QueueOk, Wired, EntryOk;
    FlushEntryOk(net, next + 1, m);
    InsertOk(net, q, next, e);
    FlushCounted(net, q, next, e, Insert(q, e));
    forall f | f in Insert(q, e)
      ensures f in q || f == e
    {
      InsertMember(q, e, f);
    }
    MovedQuietly(net, q, Insert(q, e), next + 1, m);
  }

  lemma MovedQuietly<V>(net: Net<V>, q: Queue<Act<V>>, r: Queue<Act<V>>, next: nat, m: nat)
    requires Wired(net) && QueueOk(net, r, next)
    requires forall f :: f in r ==> f in q || (f.action.Flush? && f.node == m)
    requires forall x :: x != m ==> Flushes(r, x) == Flushes(q, x)
    requires forall p :: Pending(r, p) == Pending(q, p) + []
    ensures Moved(net, q, r, next, m, [])
  {}

  lemma FlushEntryOk<V>(net: Net<V>, serial: nat, m: nat)
    requires Wired(net) && m < |net.kinds| && net.kinds[m].Coalesce?
    ensures EntryOk(net, FlushEntry(net, serial, m))
  {}

  lemma FlushCounted<V>(net: Net<V>, q: Queue<Act<V>>, next: nat, e: Entry<Act<V>>, r: Queue<Act<V>>)
    requires Wired(net) && QueueOk(net, q, next) && EntryOk(net, e) && e.action.Flush? && e.serial == next + 1
    requires r == Insert(q, e)
    ensures forall p :: Pending(r, p) == Pending(q, p) + []
    ensures forall x :: Flushes(r, x) == Flushes(q, x) + if x == e.node then 1 else 0
  {
    forall p
      ensures Pending(r, p) == Pending(q, p) + []
    {
      InsertPending(net, q, next, e, p);
    }
    forall x
      ensures Flushes(r, x) == Flushes(q, x) + if x == e.node then 1 else 0
    {
      InsertFlushes(q, next, e, x);
    }
  }

  // ---- the invariant ----

  /** What a transaction starts from: the values sent to each sink, and the state kept between transactions. */
  datatype Base<V> = Base(inputs: seq<seq<V>>, memory: seq<V>, heard: seq<seq<V>>)

  /** The values each port has been handed so far. */
  type Got<V> = map<Port, seq<V>>

  ghost predicate Tracked<V>(net: Net<V>, got: Got<V>) {
    forall p :: IsPort(net, p) ==> p in got
  }

  /** No value is lost, repeated or reordered on its way to a port. */
  ghost predicate Conserved<V>(net: Net<V>, s: Sim<V>, got: Got<V>)
    requires Wired(net) && Sized(net, s)
  {
    Tracked(net, got) && forall p :: IsPort(net, p) ==> got[p] + Pending(s.queue, p) == s.fired[Source(net, p)]
  }

  /** A queued flush comes after every queued delivery of its node. */
  ghost predicate FlushLast<V>(q: Queue<Act<V>>, m: nat) {
    forall e, f :: e in q && f in q && e.node == m && f.node == m && e.action.Flush? && f.action.Deliver?
                   ==> f.serial < e.serial
  }

  ghost predicate NoEntry<V>(q: Queue<Act<V>>, m: nat) {
    forall e :: e in q ==> e.node != m
  }

  ghost predicate CoalesceOk<V>(net: Net<V>, s: Sim<V>, m: nat, f: (V, V) -> V, vs: seq<V>)
    requires Wired(net) && Sized(net, s) && m < |net.kinds|
  {
    if vs == [] then s.held[m].None? && Flushes(s.queue, m) == 0 && s.fired[m] == []
    else
      && AtLeast(s.queue, net.rank[m])
      && if s.held[m].Some?
         then s.held[m].value == Fold(f, vs) && Flushes(s.queue, m) == 1 && FlushLast(s.queue, m) && s.fired[m] == []
         else NoEntry(s.queue, m) && Flushes(s.queue, m) == 0 && s.fired[m] == [Fold(f, vs)]
  }

  /** A node's firings and state, as its kind makes them from what its ports were handed. */
  ghost predicate NodeOk<V>(net: Net<V>, base: Base<V>, s: Sim<V>, got: Got<V>, m: nat)
    requires Wired(net) && Sized(net, s) && m < |net.kinds| && Tracked(net, got)
    requires |base.inputs| == |base.memory| == |base.heard| == |net.kinds|
  {
    match net.kinds[m]
    case Sink => s.fired[m] == base.inputs[m]
    case Map(_, f) => s.fired[m] == MapAll(f, got[Port(m, 0)])
    case Filter(_, keep) => s.fired[m] == FilterAll(keep, got[Port(m, 0)])
    case Merge(_, _) =>
      s.fired[m] == got[Port(m, 0)] + got[Port(m, 1)] && (got[Port(m, 1)] != [] ==> AtLeast(s.queue, net.rank[m]))
    case Coalesce(_, f) => CoalesceOk(net, s, m, f, got[Port(m, 0)])
    case Collect(_, step) => (s.memory[m], s.fired[m]) == Scan(step, base.memory[m], got[Port(m, 0)])
    case Listen(_) => s.heard[m] == base.heard[m] + got[Port(m, 0)] && s.fired[m] == []
  }

  ghost predicate Inv<V>(net: Net<V>, base: Base<V>, s: Sim<V>, got: Got<V>) {
    && Wired(net) && Sized(net, s) && |base.inputs| == |base.memory| == |base.heard| == |net.kinds|
    && QueueOk(net, s.queue, s.next) && Conserved(net, s, got)
    && forall m :: 0 <= m < |net.kinds| ==> NodeOk(net, base, s, got, m)
  }

  // ---- one step, seen from the other nodes ----

  function Popped<V>(s: Sim<V>): Sim<V>
    requires s.queue != []
  {
    s.(queue := s.queue[1..])
  }

  /** `t` is what processing the head of `s.queue`, an entry of node `m`, leads to. */
  ghost predicate Stepped<V>(net: Net<V>, s: Sim<V>, t: Sim<V>, m: nat, outs: seq<V>) {
    && Wired(net) && Sized(net, s) && s.queue != [] && s.queue[0].node == m && QueueOk(net, s.queue, s.next)
    && OnlyNode(net, Popped(s), t, m, outs) && Moved(net, s.queue[1..], t.queue, t.next, m, outs)
  }

  /** The head has rank at most its node's, so what it adds is no lower than any bound on the queue,
      and nothing is added for a node that the queue has already reached. */
  lemma StepRanks<V>(net: Net<V>, s: Sim<V>, t: Sim<V>, m: nat, outs: seq<V>)
    requires Stepped(net, s, t, m, outs)
    ensures s.queue[0] in s.queue && AtLeast(s.queue, s.queue[0].rank) && s.queue[0].rank <= net.rank[m]
    ensures forall r :: AtLeast(s.queue, r) ==> AtLeast(t.queue, r)
    ensures forall x, f :: 0 <= x < |net.kinds| && x != m && AtLeast(s.queue, net.rank[x]) && f in t.queue && f.node == x
                           ==> f in s.queue
  {
    PopOk(net, s.queue, s.next);
    var e := s.queue[0];
    assert e in s.queue && EntryOk(net, e);
    forall f | f in t.queue && f !in s.queue
      ensures f.rank >= e.rank && f.node < |net.kinds| && (f.node != m ==> net.rank[f.node] > net.rank[m])
    {
      assert EntryOk(net, f) && f !in s.queue[1..];
    }
  }

  /** All that `NodeOk` looks at for node `x`, from `s` to `t`. */
  ghost predicate Untouched<V>(net: Net<V>, s: Sim<V>, t: Sim<V>, x: nat)
    requires Sized(net, s) && Sized(net, t) && x < |net.kinds| && |net.rank| == |net.kinds|
  {
    && t.fired[x] == s.fired[x] && t.held[x] == s.held[x] && t.memory[x] == s.memory[x] && t.heard[x] == s.heard[x]
    && Flushes(t.queue, x) == Flushes(s.queue, x)
    && (AtLeast(s.queue, net.rank[x]) ==>
          && AtLeast(t.queue, net.rank[x])
          && (FlushLast(s.queue, x) ==> FlushLast(t.queue, x))
          && (NoEntry(s.queue, x) ==> NoEntry(t.queue, x)))
  }

  lemma StepUntouched<V>(net: Net<V>, s: Sim<V>, t: Sim<V>, m: nat, outs: seq<V>, x: nat)
    requires Stepped(net, s, t, m, outs) && x < |net.kinds| && x != m
    ensures Untouched(net, s, t, x)
  {
    StepRanks(net, s, t, m, outs);
    assert Flushes(t.queue, x) == Flushes(s.queue[1..], x) == Flushes(s.queue, x);
    assert t.fired[x] == s.fired[x];
    hide QueueOk;
  }

  lemma StepFrame<V>(net: Net<V>, base: Base<V>, s: Sim<V>, t: Sim<V>, got: Got<V>, got': Got<V>, x: nat)
    requires Wired(net) && Sized(net, s) && Sized(net, t) && Tracked(net, got) && Tracked(net, got')
    requires |base.inputs| == |base.memory| == |base.heard| == |net.kinds| && x < |net.kinds|
    requires Untouched(net, s, t, x) && NodeOk(net, base, s, got, x)
    requires forall p :: IsPort(net, p) && p.node == x ==> got'[p] == got[p]
    ensures NodeOk(net, base, t, got', x)
  {
    assert IsPort(net, Port(x, 0)) ==> got'[Port(x, 0)] == got[Port(x, 0)];
    assert IsPort(net, Port(x, 1)) ==> got'[Port(x, 1)] == got[Port(x, 1)];
  }

  // ---- one step, seen from the links ----

  lemma StepConserves<V>(net: Net<V>, s: Sim<V>, t: Sim<V>, m: nat, outs: seq<V>, got: Got<V>, got': Got<V>)
    requires Wired(net) && Sized(net, s) && Sized(net, t) && s.queue != []
    requires Stepped(net, s, t, m, outs) && Conserved(net, s, got) && Tracked(net, got')
    requires forall p :: IsPort(net, p) ==> got'[p] == got[p] + HeadFor(s.queue, p)
    ensures Conserved(net, t, got')
  {
    hide Stepped, HeadFor, Pending;
    forall p | IsPort(net, p)
      ensures got'[p] + Pending(t.queue, p) == t.fired[Source(net, p)]
    {
      PortConserved(net, s, t, m, outs, got[p], p);
    }
  }

  /** The value that the head of the queue delivers to `p`, if it does. */
  function HeadFor<V>(q: Queue<Act<V>>, p: Port): seq<V>
    requires q != []
  {
    if q[0].action.Deliver? && q[0].action.port == p then [q[0].action.value] else []
  }

  lemma PortConserved<V>(net: Net<V>, s: Sim<V>, t: Sim<V>, m: nat, outs: seq<V>, vs: seq<V>, p: Port)
    requires Stepped(net, s, t, m, outs) && IsPort(net, p)
    requires vs + Pending(s.queue, p) == s.fired[Source(net, p)]
    ensures vs + HeadFor(s.queue, p) + Pending(t.queue, p) == t.fired[Source(net, p)]
  {
    PortStepped(net, s, t, m, outs, p);
    var rest, src := Pending(s.queue[1..], p), Source(net, p);
    hide *;
    Reassociated(vs, HeadFor(s.queue, p), rest, if src == m then outs else []);
  }

  /** What one step does to what is pending for a port and to what its source has fired. */
  lemma PortStepped<V>(net: Net<V>, s: Sim<V>, t: Sim<V>, m: nat, outs: seq<V>, p: Port)
    requires Stepped(net, s, t, m, outs) && IsPort(net, p)
    ensures Pending(s.queue, p) == HeadFor(s.queue, p) + Pending(s.queue[1..], p)
    ensures var more := if Source(net, p) == m then outs else [];
            && Pending(t.queue, p) == Pending(s.queue[1..], p) + more
            && t.fired[Source(net, p)] == s.fired[Source(net, p)] + more
  {
    hide QueueOk, Flushes;
    var src := Source(net, p);
    assert src != m ==> s.fired[src] + [] == s.fired[src];
  }

  lemma Reassociated<T>(a: seq<T>, b: seq<T>, c: seq<T>, d: seq<T>)
    ensures a + b + (c + d) == a + (b + c) + d
  {}

  // ---- one step, seen from its own node ----

  lemma Unsnoc<T>(vs: seq<T>, v: T)
    ensures (vs + [v])[..|vs + [v]| - 1] == vs && (vs + [v])[|vs + [v]| - 1] == v && vs + [v] != []
  {}

  lemma {:induction false} NoFlush<V>(q: Queue<Act<V>>, m: nat)
    requires Flushes(q, m) == 0
    ensures forall e :: e in q && e.node == m ==> e.action.Deliver?
  {
    if q != [] {
      NoFlush(q[1..], m);
      assert forall e :: e in q ==> e == q[0] || e in q[1..];
    }
  }

  /** What the queue says about its head. */
  lemma HeadFacts<V>(net: Net<V>, q: Queue<Act<V>>, next: nat)
    requires Wired(net) && QueueOk(net, q, next) && q != []
    ensures q[0] in q && EntryOk(net, q[0]) && AtLeast(q, q[0].rank) && QueueOk(net, q[1..], next)
    ensures forall r :: AtLeast(q, r) ==> AtLeast(q[1..], r)
    ensures forall x :: x in q[1..] ==> x.serial <= next
  {
    PopOk(net, q, next);
  }

  /** A coalescing node handed its first value queues its flush behind everything queued for it. */
  lemma CoalesceFirst<V>(net: Net<V>, s: Sim<V>, m: nat, f: (V, V) -> V, v: V)
    requires Wired(net) && Sized(net, s) && s.queue != [] && QueueOk(net, s.queue, s.next)
    requires s.queue[0] == Entry(s.queue[0].rank, s.queue[0].serial, m, Deliver(Port(m, 0), v))
    requires m < |net.kinds| && net.kinds[m].Coalesce? && net.kinds[m].combine == f && CoalesceOk(net, s, m, f, [])
    ensures CoalesceOk(net, Handle(net, Popped(s), Port(m, 0), v), m, f, [] + [v])
  {
    hide QueueOk, Wired;
    HeadFacts(net, s.queue, s.next);
    FlushBehind(net, s.queue[1..], s.next, m, FlushEntry(net, s.next + 1, m));
  }

  lemma FlushBehind<V>(net: Net<V>, q: Queue<Act<V>>, next: nat, m: nat, e: Entry<Act<V>>)
    requires Wired(net) && QueueOk(net, q, next) && m < |net.kinds| && net.kinds[m].Coalesce?
    requires e == FlushEntry(net, next + 1, m) && Flushes(q, m) == 0 && AtLeast(q, net.rank[m])
    ensures AtLeast(Insert(q, e), net.rank[m]) && Flushes(Insert(q, e), m) == 1 && FlushLast(Insert(q, e), m)
  {
    FlushQueued(net, q, next, m, e);
    NoFlush(q, m);
    assert forall x :: x in q ==> x.serial < e.serial;
    hide Moved, QueueOk;
  }

  lemma CoalesceMore<V>(net: Net<V>, s: Sim<V>, m: nat, f: (V, V) -> V, v: V, vs: seq<V>)
    requires Wired(net) && Sized(net, s) && s.queue != [] && QueueOk(net, s.queue, s.next) && vs != []
    requires s.queue[0] == Entry(s.queue[0].rank, s.queue[0].serial, m, Deliver(Port(m, 0), v))
    requires m < |net.kinds| && net.kinds[m].Coalesce? && net.kinds[m].combine == f && CoalesceOk(net, s, m, f, vs)
    ensures CoalesceOk(net, Handle(net, Popped(s), Port(m, 0), v), m, f, vs + [v])
  {
    PopOk(net, s.queue, s.next);
    assert s.queue[0] in s.queue;
    Unsnoc(vs, v);
  }

  /** The flush finds nothing left for its node and makes it fire the fold, once. */
  lemma CoalesceFlushed<V>(net: Net<V>, s: Sim<V>, m: nat, f: (V, V) -> V, vs: seq<V>)
    requires Wired(net) && Sized(net, s) && s.queue != [] && QueueOk(net, s.queue, s.next)
    requires s.queue[0].action.Flush? && s.queue[0].node == m && m < |net.kinds| && CoalesceOk(net, s, m, f, vs)
    ensures s.held[m].Some?
    ensures CoalesceOk(net, FlushHeld(net, Popped(s), m), m, f, vs)
    ensures Stepped(net, s, FlushHeld(net, Popped(s), m), m, [s.held[m].value])
  {
    HeadFacts(net, s.queue, s.next);
    assert Flushes(s.queue, m) >= 1;
    SendFacts(net, Popped(s), m, s.held[m].value);
    FlushStepped(net, s, m);
    FlushLeavesNothing(net, s.queue, s.next, m);
    SentElsewhere(net, s, FlushHeld(net, Popped(s), m), m, [s.held[m].value]);
    hide QueueOk, Wired, Stepped;
  }

  lemma FlushStepped<V>(net: Net<V>, s: Sim<V>, m: nat)
    requires Wired(net) && Sized(net, s) && s.queue != [] && QueueOk(net, s.queue, s.next)
    requires s.queue[0].node == m && m < |net.kinds| && s.held[m].Some?
    ensures Stepped(net, s, FlushHeld(net, Popped(s), m), m, [s.held[m].value])
  {
    PopOk(net, s.queue, s.next);
    SendFacts(net, Popped(s), m, s.held[m].value);
    hide QueueOk, Wired, Moved;
  }

  /** After a flush popped at the head, the node has no entry left, and the queue stays above its rank. */
  lemma SentElsewhere<V>(net: Net<V>, s: Sim<V>, t: Sim<V>, m: nat, outs: seq<V>)
    requires Stepped(net, s, t, m, outs) && m < |net.kinds| && NoEntry(s.queue[1..], m)
    requires forall x :: Flushes(t.queue, x) == Flushes(s.queue[1..], x)
    ensures NoEntry(t.queue, m) && (AtLeast(s.queue, net.rank[m]) ==> AtLeast(t.queue, net.rank[m]))
  {
    StepRanks(net, s, t, m, outs);
    forall x | x in t.queue
      ensures x.node != m
    {
      assert EntryOk(net, x);
      if x.node == m && x !in s.queue[1..] && x.action.Flush? {
        FlushCountedIn(t.queue, x);
        NoFlushIn(s.queue[1..], m);
      }
    }
  }

  lemma {:induction false} FlushCountedIn<V>(q: Queue<Act<V>>, e: Entry<Act<V>>)
    requires e in q && e.action.Flush?
    ensures Flushes(q, e.node) > 0
  {
    if q[0] != e {
      FlushCountedIn(q[1..], e);
    }
  }

  lemma {:induction false} NoFlushIn<V>(q: Queue<Act<V>>, m: nat)
    requires NoEntry(q, m)
    ensures Flushes(q, m) == 0
  {
    if q != [] {
      assert q[0] in q;
      NoFlushIn(q[1..], m);
    }
  }

  lemma FlushLeavesNothing<V>(net: Net<V>, q: Queue<Act<V>>, next: nat, m: nat)
    requires Wired(net) && QueueOk(net, q, next) && q != [] && q[0].action.Flush? && q[0].node == m
    requires Flushes(q, m) == 1 && FlushLast(q, m)
    ensures NoEntry(q[1..], m)
  {
    NoFlush(q[1..], m);
    forall x | x in q[1..]
      ensures x.node != m
    {
      assert x in q && q[0] in q && EntryOk(net, x) && EntryOk(net, q[0]) && Before(q[0], x);
    }
  }

  lemma StepSelf<V>(net: Net<V>, base: Base<V>, s: Sim<V>, got: Got<V>, p: Port, v: V)
    requires Inv(net, base, s, got) && s.queue != [] && s.queue[0].action == Deliver(p, v)
    ensures IsPort(net, p)
    ensures NodeOk(net, base, Handle(net, Popped(s), p, v), got[p := got[p] + [v]], p.node)
  {
    var e, m := s.queue[0], p.node;
    assert e in s.queue && EntryOk(net, e) && NodeOk(net, base, s, got, m);
    PopOk(net, s.queue, s.next);
    Unsnoc(got[p], v);
    assert !net.kinds[m].Merge? ==> p == Port(m, 0);
    match net.kinds[m]
    case Merge(_, _) => MergeSelf(net, base, s, got, p, v);
    case Coalesce(_, f) =>
      if got[p] == [] {
        CoalesceFirst(net, s, m, f, v);
      } else {
        CoalesceMore(net, s, m, f, v, got[p]);
      }
    case _ =>
  }

  lemma MergeSelf<V>(net: Net<V>, base: Base<V>, s: Sim<V>, got: Got<V>, p: Port, v: V)
    requires Inv(net, base, s, got) && s.queue != [] && s.queue[0].action == Deliver(p, v)
    requires IsPort(net, p) && net.kinds[p.node].Merge?
    ensures NodeOk(net, base, Handle(net, Popped(s), p, v), got[p := got[p] + [v]], p.node)
  {
    var m := p.node;
    assert NodeOk(net, base, s, got, m);
    HeadFacts(net, s.queue, s.next);
    MergeStepped(net, s, p, v);
    var left, right := got[Port(m, 0)], got[Port(m, 1)];
    assert p.index == 0 ==> right == [] && left + right + [v] == left + [v] + right;
    assert p.index == 1 ==> left + right + [v] == left + (right + [v]);
    hide QueueOk, Wired, Conserved;
  }

  /** The right side is handed a value only when the queue has passed the left side's rank for good. */
  lemma MergeStepped<V>(net: Net<V>, s: Sim<V>, p: Port, v: V)
    requires Wired(net) && Sized(net, s) && s.queue != [] && QueueOk(net, s.queue, s.next)
    requires s.queue[0].action == Deliver(p, v) && IsPort(net, p) && net.kinds[p.node].Merge?
    ensures p.index == 0 ==> !AtLeast(s.queue, net.rank[p.node])
    ensures p.index == 1 ==> AtLeast(Handle(net, Popped(s), p, v).queue, net.rank[p.node])
  {
    HeadFacts(net, s.queue, s.next);
    SendFacts(net, Popped(s), p.node, v);
    var t := Handle(net, Popped(s), p, v);
    assert Stepped(net, s, t, p.node, [v]);
    StepRanks(net, s, t, p.node, [v]);
    hide QueueOk, OnlyNode, Moved;
  }
}
