/** With handlers that keep no state, what listeners receive does not depend on the interleaving or on
    the number of workers. */
module Confluence {
  import opened WorkerPool

  /** How often processing `e`, and all it leads to, delivers `d`. */
  ghost function Expand<E(!new), D>(h: Handlers<E, D>, e: E, d: D): nat
    requires WellFounded(h)
    decreases h.size(e), 1, 0
  {
    multiset(h.delivers(e))[d] + ExpandBelow(h, h.pushes(e), h.size(e), d)
  }

  ghost function ExpandBelow<E(!new), D>(h: Handlers<E, D>, es: seq<E>, bound: nat, d: D): nat
    requires WellFounded(h) && forall e :: e in es ==> h.size(e) < bound
    decreases bound, 0, |es|
  {
    if es == [] then 0
    else
      assert es[0] in es;
      Expand(h, es[0], d) + ExpandBelow(h, es[1..], bound, d)
  }

  ghost function ExpandAll<E(!new), D>(h: Handlers<E, D>, es: seq<E>, d: D): nat
    requires WellFounded(h)
  {
    if es == [] then 0 else Expand(h, es[0], d) + ExpandAll(h, es[1..], d)
  }

  lemma {:induction false} BelowIsAll<E(!new), D>(h: Handlers<E, D>, es: seq<E>, bound: nat, d: D)
    requires WellFounded(h) && forall e :: e in es ==> h.size(e) < bound
    ensures ExpandBelow(h, es, bound, d) == ExpandAll(h, es, d)
  {
    if es != [] {
      assert es[0] in es;
      BelowIsAll(h, es[1..], bound, d);
    }
  }

  lemma {:induction false} ExpandAppend<E(!new), D>(h: Handlers<E, D>, es: seq<E>, e: E, d: D)
    requires WellFounded(h)
    ensures ExpandAll(h, es + [e], d) == ExpandAll(h, es, d) + Expand(h, e, d)
  {
    if es == [] {
      assert [] + [e] == [e] && [e][1..] == [];
    } else {
      ExpandAppend(h, es[1..], e, d);
      assert (es + [e])[1..] == es[1..] + [e];
    }
  }

  /** What a busy worker's entry still has to deliver and to push. */
  ghost function WorkerExpand<E(!new), D>(h: Handlers<E, D>, w: Worker<E>, d: D): nat
    requires WellFounded(h)
  {
    if w.Busy? then multiset(h.delivers(w.entry))[d] + ExpandAll(h, w.todo, d) else 0
  }

  ghost function WorkersExpand<E(!new), D>(h: Handlers<E, D>, ws: seq<Worker<E>>, d: D): nat
    requires WellFounded(h)
  {
    if ws == [] then 0 else WorkerExpand(h, ws[0], d) + WorkersExpand(h, ws[1..], d)
  }

  lemma {:induction false} WorkersExpandUpdate<E(!new), D>(h: Handlers<E, D>, ws: seq<Worker<E>>, w: nat, x: Worker<E>, d: D)
    requires WellFounded(h) && w < |ws|
    ensures WorkersExpand(h, ws[w := x], d) + WorkerExpand(h, ws[w], d) == WorkersExpand(h, ws, d) + WorkerExpand(h, x, d)
  {
    if w == 0 {
      assert ws[w := x][1..] == ws[1..];
    } else {
      WorkersExpandUpdate(h, ws[1..], w - 1, x, d);
      assert ws[w := x][1..] == ws[1..][w - 1 := x];
    }
  }

  lemma {:induction false} IdleExpand<E(!new), D>(h: Handlers<E, D>, ws: seq<Worker<E>>, d: D)
    requires WellFounded(h) && forall w :: 0 <= w < |ws| ==> !ws[w].Busy?
    ensures WorkersExpand(h, ws, d) == 0
  {
    if ws != [] {
      IdleExpand(h, ws[1..], d);
    }
  }

  /** Deliveries made, plus those still to come from the queue and from entries in flight. */
  ghost function Total<E(!new), D>(h: Handlers<E, D>, s: Pool<E, D>, d: D): nat
    requires WellFounded(h)
  {
    s.delivered[d] + ExpandAll(h, s.queue, d) + WorkersExpand(h, s.workers, d)
  }

  lemma StepInvariant<E(!new), D>(h: Handlers<E, D>, s: Pool<E, D>, w: nat, t: Pool<E, D>, d: D)
    requires WellFounded(h) && Step(h, s, w, t)
    ensures Total(h, t, d) == Total(h, s, d)
  {
    if !SetFinished(s, t) {
      WorkersExpandUpdate(h, s.workers, w, t.workers[w], d);
      if Take(h, s, w, t) {
        BelowIsAll(h, h.pushes(s.queue[0]), h.size(s.queue[0]), d);
      } else if Push(s, w, t) {
        ExpandAppend(h, s.queue, s.workers[w].todo[0], d);
      }
    }
  }

  lemma {:induction false} RunInvariant<E(!new), D>(h: Handlers<E, D>, ss: seq<Pool<E, D>>, ws: seq<nat>, d: D)
    requires WellFounded(h) && IsRun(h, ss, ws)
    ensures Total(h, ss[|ws|], d) == Total(h, ss[0], d)
    decreases |ws|
  {
    if ws != [] {
      var k := |ws| - 1;
      RunInvariant(h, ss[..k + 1], ws[..k], d);
      assert Step(h, ss[k], ws[k], ss[k + 1]);
      StepInvariant(h, ss[k], ws[k], ss[k + 1], d);
    }
  }

  /** Every completed run with at least one worker delivers exactly what the initial entries expand to. */
  lemma DeliversExpansion<E(!new), D(!new)>(h: Handlers<E, D>, entries: seq<E>, n: nat, ss: seq<Pool<E, D>>, ws: seq<nat>)
    requires WellFounded(h) && n >= 1 && IsRun(h, ss, ws) && ss[0] == Start(entries, n) && Joined(ss[|ws|])
    ensures forall d :: ss[|ws|].delivered[d] == ExpandAll(h, entries, d)
  {
    JoinedMeansDrained(h, entries, n, ss, ws);
    forall d
      ensures ss[|ws|].delivered[d] == ExpandAll(h, entries, d)
    {
      RunInvariant(h, ss, ws, d);
      IdleExpand(h, ss[0].workers, d);
      IdleExpand(h, ss[|ws|].workers, d);
    }
  }

  // ---- networks of map, filter, merge and listen ----

  datatype Handler<!V> =
    | MapTo(out: nat, f: V -> V)
    | FilterTo(out: nat, keep: V -> bool)
    | RelayTo(out: nat)
    | ListenerAt(id: nat)

  /** `targets[n]` are the handlers registered at node `n`; `height` witnesses that there is no cycle. */
  datatype Net<!V> = Net(targets: seq<seq<nat>>, handlers: seq<Handler<V>>, height: seq<nat>)

  /** A `send_entry`: a handler and the value to hand it. */
  datatype Job<+V> = Job(handler: nat, value: V)

  datatype Heard<+V> = Heard(listener: nat, value: V)

  /** The handlers that handler `k` can send to. */
  function Reached<V>(net: Net<V>, k: nat): seq<nat>
    requires k < |net.handlers|
  {
    if net.handlers[k].ListenerAt? || net.handlers[k].out >= |net.targets| then [] else net.targets[net.handlers[k].out]
  }

  ghost predicate Acyclic<V>(net: Net<V>) {
    && |net.height| == |net.handlers|
    && (forall n, j :: 0 <= n < |net.targets| && j in net.targets[n] ==> j < |net.handlers|)
    && (forall k, j :: 0 <= k < |net.handlers| && j in Reached(net, k) ==> j < |net.height| && net.height[j] < net.height[k])
  }

  /** `send`: one entry for each target of node `n`. */
  function SendTo<V>(net: Net<V>, n: nat, v: V): (jobs: seq<Job<V>>)
    ensures n < |net.targets| ==> |jobs| == |net.targets[n]|
                                  && forall i :: 0 <= i < |jobs| ==> jobs[i] == Job(net.targets[n][i], v)
    ensures n >= |net.targets| ==> jobs == []
  {
    if n < |net.targets| then seq(|net.targets[n]|, i requires 0 <= i < |net.targets[n]| => Job(net.targets[n][i], v))
    else []
  }

  /** What `handle` makes an entry's handler send. */
  function Pushes<V>(net: Net<V>, j: Job<V>): seq<Job<V>> {
    if j.handler >= |net.handlers| then []
    else
      match net.handlers[j.handler]
      case MapTo(out, f) => SendTo(net, out, f(j.value))
      case FilterTo(out, keep) => if keep(j.value) then SendTo(net, out, j.value) else []
      case RelayTo(out) => SendTo(net, out, j.value)
      case ListenerAt(_) => []
  }

  function Delivers<V>(net: Net<V>, j: Job<V>): seq<Heard<V>> {
    if j.handler < |net.handlers| && net.handlers[j.handler].ListenerAt?
    then [Heard(net.handlers[j.handler].id, j.value)] else []
  }

  function Height<V>(net: Net<V>, j: Job<V>): nat {
    if j.handler < |net.height| then net.height[j.handler] else 0
  }

  function HandlersOf<V>(net: Net<V>): Handlers<Job<V>, Heard<V>> {
    Handlers(j => Pushes(net, j), j => Delivers(net, j), j => Height(net, j))
  }

  lemma NetIsWellFounded<V(!new)>(net: Net<V>)
    requires Acyclic(net)
    ensures WellFounded(HandlersOf(net))
  {
    var h := HandlersOf(net);
    forall e, c | c in h.pushes(e)
      ensures h.size(c) < h.size(e)
    {
      assert c.handler in Reached(net, e.handler);
    }
  }

  // ---- what listeners hear ----

  /** How often sending `v` to each of these handlers delivers `d`, in all. */
  ghost function HeardFrom<V(!new)>(net: Net<V>, targets: seq<nat>, v: V, d: Heard<V>): nat
    requires Acyclic(net)
  {
    NetIsWellFounded(net);
    if targets == [] then 0
    else Expand(HandlersOf(net), Job(targets[0], v), d) + HeardFrom(net, targets[1..], v, d)
  }

  lemma {:induction false} ExpandSends<V(!new)>(net: Net<V>, targets: seq<nat>, v: V, jobs: seq<Job<V>>, d: Heard<V>)
    requires Acyclic(net) && |jobs| == |targets| && forall i :: 0 <= i < |jobs| ==> jobs[i] == Job(targets[i], v)
    ensures WellFounded(HandlersOf(net)) && ExpandAll(HandlersOf(net), jobs, d) == HeardFrom(net, targets, v, d)
  {
    NetIsWellFounded(net);
    if targets != [] {
      ExpandSends(net, targets[1..], v, jobs[1..], d);
    }
  }

  /** What handing `v` to a handler leads to: a map hands the image of `v` to each handler at its output, a
      filter hands on `v` if it passes and nothing otherwise, a relay (either side of a merge) hands on `v`,
      and a listener hears `v` once. */
  lemma ExpandJob<V(!new)>(net: Net<V>, k: nat, v: V, d: Heard<V>)
    requires Acyclic(net) && k < |net.handlers| && (net.handlers[k].ListenerAt? || net.handlers[k].out < |net.targets|)
    ensures WellFounded(HandlersOf(net))
    ensures var n, h := Expand(HandlersOf(net), Job(k, v), d), net.handlers[k];
            && (h.MapTo? ==> n == HeardFrom(net, net.targets[h.out], h.f(v), d))
            && (h.FilterTo? && h.keep(v) ==> n == HeardFrom(net, net.targets[h.out], v, d))
            && (h.FilterTo? && !h.keep(v) ==> n == 0)
            && (h.RelayTo? ==> n == HeardFrom(net, net.targets[h.out], v, d))
            && (h.ListenerAt? ==> n == if d == Heard(h.id, v) then 1 else 0)
  {
    NetIsWellFounded(net);
    var hs, j := HandlersOf(net), Job(k, v);
    var jobs := hs.pushes(j);
    BelowIsAll(hs, jobs, hs.size(j), d);
    match net.handlers[k]
    case MapTo(out, f) => ExpandSends(net, net.targets[out], f(v), jobs, d);
    case FilterTo(out, keep) =>
      if keep(v) {
        ExpandSends(net, net.targets[out], v, jobs, d);
      }
    case RelayTo(out) => ExpandSends(net, net.targets[out], v, jobs, d);
    case ListenerAt(_) =>
  }

  /** Two completed runs of a stateless network from the same entries hand every listener the same values,
      each as often, whatever the two worker counts and interleavings: what the entries expand to. */
  lemma ListenersHearTheSame<V(!new)>(net: Net<V>, entries: seq<Job<V>>, m: nat, n: nat,
                                      ss: seq<Pool<Job<V>, Heard<V>>>, ws: seq<nat>,
                                      tt: seq<Pool<Job<V>, Heard<V>>>, vs: seq<nat>)
    requires Acyclic(net) && m >= 1 && n >= 1
    requires IsRun(HandlersOf(net), ss, ws) && ss[0] == Start(entries, m) && Joined(ss[|ws|])
    requires IsRun(HandlersOf(net), tt, vs) && tt[0] == Start(entries, n) && Joined(tt[|vs|])
    ensures ss[|ws|].delivered == tt[|vs|].delivered && WellFounded(HandlersOf(net))
    ensures forall d :: ss[|ws|].delivered[d] == ExpandAll(HandlersOf(net), entries, d)
  {
    NetIsWellFounded(net);
    DeliversExpansion(HandlersOf(net), entries, m, ss, ws);
    DeliversExpansion(HandlersOf(net), entries, n, tt, vs);
    forall d
      ensures ss[|ws|].delivered[d] == tt[|vs|].delivered[d]
    {}
  }
}
