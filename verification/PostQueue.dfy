/** The post queue of a partition: `last` and `post` actions, run in order after a transaction, while they
    post more actions and run transactions of their own. Cells and firings are finalized through it. */
module PostQueue {
  import opened Wrappers

  /** What happens to the partition while a transaction is open and its entries are processed by one
      worker: values reach cells, nodes fire, the program posts actions or opens and closes an inner
      transaction. */
  datatype Effect<+V> =
    | Deliver(cell: nat, value: V)
    | Fire(node: nat, value: V)
    | Post(id: nat, body: seq<Command<V>>)
    | Inner(effects: seq<Effect<V>>)

  /** What the body of a posted action does: post another action, or run a whole transaction. */
  datatype Command<+V> = PostNow(id: nat, body: seq<Command<V>>) | Transact(effects: seq<Effect<V>>)

  /** A queued action: a cell's finalize, a node's clearing of its firings, or an action of the program. */
  datatype Action<+V> = Finalize(cell: nat) | Clear(node: nat) | User(id: nat, body: seq<Command<V>>)

  // ---- how much an action can still cause ----

  function CommandSize<V>(c: Command<V>): nat {
    match c
    case PostNow(_, body) => 1 + BodySize(body)
    case Transact(es) => EffectsSize(es)
  }

  function BodySize<V>(body: seq<Command<V>>): nat {
    if body == [] then 0 else CommandSize(body[0]) + BodySize(body[1..])
  }

  function EffectSize<V>(e: Effect<V>): nat {
    match e
    case Post(_, body) => 1 + BodySize(body)
    case Inner(es) => EffectsSize(es)
    case _ => 1
  }

  function EffectsSize<V>(es: seq<Effect<V>>): nat {
    if es == [] then 0 else EffectSize(es[0]) + EffectsSize(es[1..])
  }

  function ActionSize<V>(a: Action<V>): nat {
    if a.User? then 1 + BodySize(a.body) else 1
  }

  function QueueSize<V>(q: seq<Action<V>>): nat {
    if q == [] then 0 else ActionSize(q[0]) + QueueSize(q[1..])
  }

  lemma {:induction false} QueueSizeAppend<V>(q: seq<Action<V>>, a: Action<V>)
    ensures QueueSize(q + [a]) == QueueSize(q) + ActionSize(a)
  {
    if q == [] {
      assert [] + [a] == [a] && [a][1..] == [];
    } else {
      QueueSizeAppend(q[1..], a);
      assert (q + [a])[1..] == q[1..] + [a];
    }
  }

  lemma {:induction false} QueueSizeConcat<V>(q: seq<Action<V>>, r: seq<Action<V>>)
    ensures QueueSize(q + r) == QueueSize(q) + QueueSize(r)
  {
    if q == [] {
      assert [] + r == r;
    } else {
      QueueSizeConcat(q[1..], r);
      assert (q + r)[1..] == q[1..] + r;
    }
  }

  // ---- what effects and actions amount to ----

  /** The actions that some effects post, in order. */
  function PostsOf<V>(es: seq<Effect<V>>): seq<Action<V>> {
    if es == [] then [] else PostsIn(es[0]) + PostsOf(es[1..])
  }

  function PostsIn<V>(e: Effect<V>): seq<Action<V>> {
    match e
    case Post(id, body) => [User(id, body)]
    case Inner(es) => PostsOf(es)
    case _ => []
  }

  /** The deliveries to live cells among some effects, in order. */
  function DeliveriesOf<V>(es: seq<Effect<V>>, cells: nat): seq<(nat, V)> {
    if es == [] then [] else DeliveriesIn(es[0], cells) + DeliveriesOf(es[1..], cells)
  }

  function DeliveriesIn<V>(e: Effect<V>, cells: nat): seq<(nat, V)> {
    match e
    case Deliver(c, v) => if c < cells then [(c, v)] else []
    case Inner(es) => DeliveriesOf(es, cells)
    case _ => []
  }

  /** The firings that some effects leave, the latest of a node first. */
  function FiredBy<V>(es: seq<Effect<V>>, firings: seq<seq<V>>): (r: seq<seq<V>>)
    ensures |r| == |firings|
  {
    if es == [] then firings else FiredBy(es[1..], FiredIn(es[0], firings))
  }

  function FiredIn<V>(e: Effect<V>, firings: seq<seq<V>>): (r: seq<seq<V>>)
    ensures |r| == |firings|
  {
    match e
    case Fire(n, v) => if n < |firings| then firings[n := [v] + firings[n]] else firings
    case Inner(es) => FiredBy(es, firings)
    case _ => firings
  }

  /** An action's body as the effects it has. */
  function AsEffects<V>(body: seq<Command<V>>): seq<Effect<V>> {
    if body == [] then [] else [AsEffect(body[0])] + AsEffects(body[1..])
  }

  function AsEffect<V>(c: Command<V>): Effect<V> {
    match c
    case PostNow(id, body) => Post(id, body)
    case Transact(es) => Inner(es)
  }

  /** One effect posts, delivers and fires what it says; an inner transaction what its own effects do. */
  lemma SingleEffect<V>(e: Effect<V>, cells: nat, firings: seq<seq<V>>)
    ensures e.Post? ==> PostsOf([e]) == [User(e.id, e.body)]
    ensures e.Inner? ==> PostsOf([e]) == PostsOf(e.effects) && DeliveriesOf([e], cells) == DeliveriesOf(e.effects, cells)
    ensures e.Inner? ==> FiredBy([e], firings) == FiredBy(e.effects, firings)
    ensures e.Deliver? ==> DeliveriesOf([e], cells) == if e.cell < cells then [(e.cell, e.value)] else []
    ensures e.Fire? ==> FiredBy([e], firings)
                        == if e.node < |firings| then firings[e.node := [e.value] + firings[e.node]] else firings
    ensures e.Deliver? || e.Fire? ==> PostsOf([e]) == []
    ensures e.Post? || e.Fire? ==> DeliveriesOf([e], cells) == []
    ensures e.Post? || e.Deliver? ==> FiredBy([e], firings) == firings
  {
    assert [e][1..] == [];
    assert PostsIn(e) + [] == PostsIn(e) && DeliveriesIn(e, cells) + [] == DeliveriesIn(e, cells);
  }

  /** Effects one after the other do what they do, one after the other. */
  lemma EffectsInOrder<V>(es: seq<Effect<V>>, fs: seq<Effect<V>>, cells: nat, firings: seq<seq<V>>)
    ensures PostsOf(es + fs) == PostsOf(es) + PostsOf(fs)
    ensures DeliveriesOf(es + fs, cells) == DeliveriesOf(es, cells) + DeliveriesOf(fs, cells)
    ensures FiredBy(es + fs, firings) == FiredBy(fs, FiredBy(es, firings))
  {
    hide PostsOf, DeliveriesOf, FiredBy;
    PostsInOrder(es, fs);
    DeliveriesInOrder(es, fs, cells);
    FiringsInOrder(es, fs, firings);
  }

  lemma PostsFirst<V>(e: Effect<V>, es: seq<Effect<V>>)
    ensures PostsOf([e] + es) == PostsIn(e) + PostsOf(es)
  {
    assert ([e] + es)[1..] == es;
  }

  lemma {:induction false} PostsInOrder<V>(es: seq<Effect<V>>, fs: seq<Effect<V>>)
    ensures PostsOf(es + fs) == PostsOf(es) + PostsOf(fs)
  {
    hide PostsOf, PostsIn;
    if es == [] {
      assert [] + fs == fs && [] + PostsOf(fs) == PostsOf(fs);
      PostsNone<V>();
    } else {
      PostsInOrder(es[1..], fs);
      PostsFirst(es[0], es[1..]);
      PostsFirst(es[0], es[1..] + fs);
      assert es == [es[0]] + es[1..] && es + fs == [es[0]] + (es[1..] + fs);
    }
  }

  lemma PostsNone<V>()
    ensures PostsOf<V>([]) == []
  {}

  lemma DeliveriesFirst<V>(e: Effect<V>, es: seq<Effect<V>>, cells: nat)
    ensures DeliveriesOf([e] + es, cells) == DeliveriesIn(e, cells) + DeliveriesOf(es, cells)
  {
    assert ([e] + es)[1..] == es;
  }

  lemma {:induction false} DeliveriesInOrder<V>(es: seq<Effect<V>>, fs: seq<Effect<V>>, cells: nat)
    ensures DeliveriesOf(es + fs, cells) == DeliveriesOf(es, cells) + DeliveriesOf(fs, cells)
  {
    hide DeliveriesOf, DeliveriesIn;
    if es == [] {
      assert [] + fs == fs && [] + DeliveriesOf(fs, cells) == DeliveriesOf(fs, cells);
      DeliveriesNone<V>(cells);
    } else {
      DeliveriesInOrder(es[1..], fs, cells);
      DeliveriesFirst(es[0], es[1..], cells);
      DeliveriesFirst(es[0], es[1..] + fs, cells);
      assert es == [es[0]] + es[1..] && es + fs == [es[0]] + (es[1..] + fs);
    }
  }

  lemma DeliveriesNone<V>(cells: nat)
    ensures DeliveriesOf<V>([], cells) == []
  {}

  lemma {:induction false} FiringsInOrder<V>(es: seq<Effect<V>>, fs: seq<Effect<V>>, firings: seq<seq<V>>)
    ensures FiredBy(es + fs, firings) == FiredBy(fs, FiredBy(es, firings))
    decreases es
  {
    if es == [] {
      assert [] + fs == fs;
    } else {
      FiringsInOrder(es[1..], fs, FiredIn(es[0], firings));
      assert (es + fs)[0] == es[0] && (es + fs)[1..] == es[1..] + fs;
    }
  }

  /** The body of an action posts and runs what its commands say, in order. */
  lemma {:induction false} CommandAt<V>(body: seq<Command<V>>, i: nat)
    requires i < |body|
    ensures |AsEffects(body)| == |body|
    ensures AsEffects(body)[i] == match body[i] {
              case PostNow(id, b) => Effect.Post(id, b)
              case Transact(es) => Inner(es)
            }
  {
    if |body| > 1 {
      CommandAt(body[1..], if i > 0 then i - 1 else 0);
    }
  }

  lemma {:induction false} AsEffectsSize<V>(body: seq<Command<V>>)
    ensures EffectsSize(AsEffects(body)) == BodySize(body)
  {
    if body != [] {
      AsEffectsSize(body[1..]);
      assert AsEffects(body)[1..] == AsEffects(body[1..]);
    }
  }

  lemma {:induction false} PostsSize<V>(es: seq<Effect<V>>)
    ensures QueueSize(PostsOf(es)) <= EffectsSize(es)
  {
    if es != [] {
      QueueSizeConcat(PostsIn(es[0]), PostsOf(es[1..]));
      PostsInSize(es[0]);
      PostsSize(es[1..]);
    }
  }

  lemma {:induction false} PostsInSize<V>(e: Effect<V>)
    ensures QueueSize(PostsIn(e)) <= EffectSize(e)
  {
    if e.Inner? {
      PostsSize(e.effects);
    }
  }

  /** The actions of the program among queued ones. */
  function Users<V>(q: seq<Action<V>>): seq<Action<V>> {
    if q == [] then []
    else if q[0].User? then [q[0]] + Users(q[1..])
    else Users(q[1..])
  }

  lemma {:induction false} UsersConcat<V>(q: seq<Action<V>>, r: seq<Action<V>>)
    ensures Users(q + r) == Users(q) + Users(r)
  {
    if q == [] {
      assert [] + r == r;
    } else {
      UsersConcat(q[1..], r);
      assert (q + r)[1..] == q[1..] + r;
    }
  }

  lemma UsersAppend<V>(q: seq<Action<V>>, a: Action<V>)
    ensures Users(q + [a]) == Users(q) + if a.User? then [a] else []
  {
    UsersConcat(q, [a]);
  }

  /** What a queued action posts. */
  function PostedBy<V>(a: Action<V>): seq<Action<V>> {
    if a.User? then PostsOf(AsEffects(a.body)) else []
  }

  /** What a queued action delivers to live cells. */
  function DeliveredBy<V>(a: Action<V>, cells: nat): seq<(nat, V)> {
    if a.User? then DeliveriesOf(AsEffects(a.body), cells) else []
  }

  /** Every action that is run once the queue holds `q`: first in, first out, whatever they post on the way. */
  function Served<V>(q: seq<Action<V>>): seq<Action<V>>
    decreases QueueSize(q)
  {
    if q == [] then []
    else
      ServedShrinks(q);
      [q[0]] + Served(q[1..] + PostedBy(q[0]))
  }

  /** The values delivered to live cells by those actions, in order. */
  function ServedDeliveries<V>(q: seq<Action<V>>, cells: nat): seq<(nat, V)>
    decreases QueueSize(q)
  {
    if q == [] then []
    else
      ServedShrinks(q);
      DeliveredBy(q[0], cells) + ServedDeliveries(q[1..] + PostedBy(q[0]), cells)
  }

  lemma ServedShrinks<V>(q: seq<Action<V>>)
    requires q != []
    ensures QueueSize(q[1..] + PostedBy(q[0])) < QueueSize(q)
  {
    QueueSizeConcat(q[1..], PostedBy(q[0]));
    if q[0].User? {
      PostsSize(AsEffects(q[0].body));
      AsEffectsSize(q[0].body);
    }
  }

  /** Running the front action moves one step through what is served. */
  lemma ServedStep<V>(q: seq<Action<V>>, cells: nat)
    requires q != []
    ensures var rest := Users(q[1..]) + PostedBy(q[0]);
            && Served(Users(q)) == Users([q[0]]) + Served(rest)
            && ServedDeliveries(Users(q), cells) == DeliveredBy(q[0], cells) + ServedDeliveries(rest, cells)
  {
    assert [q[0]][1..] == [];
    if q[0].User? {
      assert Users(q)[1..] == Users(q[1..]);
    } else {
      assert Users(q) == Users(q[1..]) == Users(q[1..]) + [];
    }
  }

  /** Effects amount to the first one, then the rest. */
  lemma FirstEffect<V>(es: seq<Effect<V>>, e: Effect<V>, rest: seq<Effect<V>>, cells: nat, firings: seq<seq<V>>,
                       ps: seq<Action<V>>, ds: seq<(nat, V)>)
    requires es != [] && e == es[0] && rest == es[1..]
    ensures ps + PostsOf(es) == ps + PostsIn(e) + PostsOf(rest) && FiredBy(es, firings) == FiredBy(rest, FiredIn(e, firings))
    ensures ds + DeliveriesOf(es, cells) == ds + DeliveriesIn(e, cells) + DeliveriesOf(rest, cells)
    ensures EffectsSize(es) == EffectSize(e) + EffectsSize(rest)
  {
    assert ps + (PostsIn(e) + PostsOf(rest)) == ps + PostsIn(e) + PostsOf(rest);
    assert ds + (DeliveriesIn(e, cells) + DeliveriesOf(rest, cells)) == ds + DeliveriesIn(e, cells) + DeliveriesOf(rest, cells);
  }

  lemma NoEffects<V>(firings: seq<seq<V>>, cells: nat)
    ensures PostsOf<V>([]) == [] && DeliveriesOf<V>([], cells) == [] && FiredBy([], firings) == firings
    ensures EffectsSize<V>([]) == 0 && Users<V>([]) == [] && Served<V>([]) == [] && ServedDeliveries<V>([], cells) == []
  {}

  // ---- one-shot scheduling ----

  /** A cell has a pending update if and only if exactly one finalize for it is queued. */
  ghost predicate CellsScheduled<V>(q: seq<Action<V>>, update: seq<Option<V>>) {
    && (forall c: nat :: Finalize(c) in multiset(q) ==> c < |update|)
    && (forall c: nat :: c < |update| ==> multiset(q)[Finalize(c)] == if update[c].Some? then 1 else 0)
  }

  /** A node has firings if and only if exactly one clearing of them is queued. */
  ghost predicate NodesScheduled<V>(q: seq<Action<V>>, firings: seq<seq<V>>) {
    && (forall n: nat :: Clear(n) in multiset(q) ==> n < |firings|)
    && (forall n: nat :: n < |firings| ==> multiset(q)[Clear(n)] == if firings[n] != [] then 1 else 0)
  }

  /** The last value delivered to cell `c`. */
  function LastOf<V>(deliveries: seq<(nat, V)>, c: nat): Option<V> {
    if deliveries == [] then None
    else
      var d := deliveries[|deliveries| - 1];
      if d.0 == c then Some(d.1) else LastOf(deliveries[..|deliveries| - 1], c)
  }

  function ValueOr<V>(o: Option<V>, default: V): V {
    if o.Some? then o.value else default
  }

  /** A cell's pending update is the last value delivered to it; without one, its current value is, or is
      its initial value if nothing was ever delivered. */
  ghost predicate CellsCurrent<V>(initial: seq<V>, current: seq<V>, update: seq<Option<V>>, deliveries: seq<(nat, V)>) {
    && |initial| == |current| == |update|
    && (forall c :: 0 <= c < |current| ==>
          if update[c].Some? then LastOf(deliveries, c) == update[c]
          else current[c] == ValueOr(LastOf(deliveries, c), initial[c]))
  }

  /** It is the value of the last delivery to the cell, if there is one. */
  lemma {:induction false} LastOfIsLast<V>(ds: seq<(nat, V)>, c: nat, i: nat)
    requires i < |ds| && ds[i].0 == c && forall j :: i < j < |ds| ==> ds[j].0 != c
    ensures LastOf(ds, c) == Some(ds[i].1)
    decreases |ds|
  {
    if i < |ds| - 1 {
      LastOfIsLast(ds[..|ds| - 1], c, i);
    }
  }

  lemma {:induction false} LastOfNone<V>(ds: seq<(nat, V)>, c: nat)
    requires forall j :: 0 <= j < |ds| ==> ds[j].0 != c
    ensures LastOf(ds, c) == None
  {
    if ds != [] {
      LastOfNone(ds[..|ds| - 1], c);
    }
  }

  lemma LastOfAppend<V>(ds: seq<(nat, V)>, c: nat, v: V)
    ensures forall x: nat :: LastOf(ds + [(c, v)], x) == if x == c then Some(v) else LastOf(ds, x)
  {
    assert (ds + [(c, v)])[..|ds|] == ds;
  }

  lemma Counted<V>(q: seq<Action<V>>, a: Action<V>)
    ensures multiset(q + [a]) == multiset(q) + multiset{a}
  {}

  lemma CellsUndisturbed<V>(q: seq<Action<V>>, update: seq<Option<V>>, a: Action<V>)
    requires CellsScheduled(q, update) && !a.Finalize?
    ensures CellsScheduled(q + [a], update)
  {
    Counted(q, a);
  }

  lemma NodesUndisturbed<V>(q: seq<Action<V>>, firings: seq<seq<V>>, a: Action<V>)
    requires NodesScheduled(q, firings) && !a.Clear?
    ensures NodesScheduled(q + [a], firings)
  {
    Counted(q, a);
  }

  lemma NodeFired<V>(q: seq<Action<V>>, firings: seq<seq<V>>, n: nat, v: V)
    requires NodesScheduled(q, firings) && n < |firings|
    ensures NodesScheduled(if firings[n] == [] then q + [Clear(n)] else q, firings[n := [v] + firings[n]])
  {
    Counted(q, Clear(n));
  }

  lemma CellUpdated<V>(q: seq<Action<V>>, update: seq<Option<V>>, c: nat, v: V)
    requires CellsScheduled(q, update) && c < |update|
    ensures CellsScheduled(if update[c].None? then q + [Finalize(c)] else q, update[c := Some(v)])
  {
    Counted(q, Finalize(c));
  }

  lemma CountedHead<V>(q: seq<Action<V>>)
    requires q != []
    ensures multiset(q) == multiset{q[0]} + multiset(q[1..])
  {
    assert q == [q[0]] + q[1..];
  }

  /** Values are delivered and nodes fire, and nothing else happens. */
  ghost predicate Plain<V>(es: seq<Effect<V>>) {
    forall e :: e in es ==> e.Deliver? || e.Fire?
  }

  lemma {:induction false} PlainPosts<V>(es: seq<Effect<V>>)
    requires Plain(es)
    ensures PostsOf(es) == []
  {
    if es != [] {
      assert es[0] in es;
      PlainPosts(es[1..]);
    }
  }

  /** With nothing queued, a cell that was delivered to last has that value. */
  lemma LastSettled<V>(initial: seq<V>, current: seq<V>, update: seq<Option<V>>, q: seq<Action<V>>, before: seq<(nat, V)>,
                       es: seq<Effect<V>>, after: seq<(nat, V)>)
    requires CellsCurrent(initial, current, update, after) && CellsScheduled(q, update) && q == []
    requires after == before + DeliveriesOf(es, |initial|)
    ensures es != [] && es[|es| - 1].Deliver? && es[|es| - 1].cell < |current| ==>
              current[es[|es| - 1].cell] == es[|es| - 1].value
  {
    if es != [] && es[|es| - 1].Deliver? && es[|es| - 1].cell < |current| {
      var e := es[|es| - 1];
      assert multiset(q)[Finalize(e.cell)] == 0;
      assert es == es[..|es| - 1] + [e];
      EffectsInOrder(es[..|es| - 1], [e], |initial|, []);
      SingleEffect(e, |initial|, []);
      LastOfIsLast(after, e.cell, |after| - 1);
    }
  }

  class Partition<V> {
    var postQ: seq<Action<V>>
    var processingPost: bool
    var depth: nat
    var current: seq<V>
    var update: seq<Option<V>>
    var firings: seq<seq<V>>

    /** Every action ever queued, every action run and every value delivered to a cell, in order. */
    ghost var posted: seq<Action<V>>
    ghost var ran: seq<Action<V>>
    ghost var deliveries: seq<(nat, V)>
    ghost const initial: seq<V>

    ghost predicate Valid()
      reads this
    {
      && posted == ran + postQ
      && CellsScheduled(postQ, update) && NodesScheduled(postQ, firings)
      && CellsCurrent(initial, current, update, deliveries)
    }

    /** No transaction is open and nothing is queued. */
    ghost predicate Quiet()
      reads this
    {
      Valid() && depth == 0 && !processingPost && postQ == []
    }

    constructor (initial: seq<V>, nodes: nat)
      ensures Quiet() && this.initial == initial && |firings| == nodes
      ensures current == initial && posted == [] && deliveries == []
    {
      this.initial, current := initial, initial;
      postQ, processingPost, depth := [], false, 0;
      update := seq(|initial|, _ => None);
      firings := seq(nodes, _ => []);
      posted, ran, deliveries := [], [], [];
    }

    /** The pending update of `hold_handler::handle`; a cell that is gone is ignored. */
    method Hold(c: nat, v: V)
      requires Valid()
      modifies this`postQ, this`update, this`posted, this`deliveries
      ensures Valid() && old(posted) <= posted && QueueSize(postQ) <= old(QueueSize(postQ)) + 1
      ensures deliveries == old(deliveries) + DeliveriesIn(Deliver(c, v), |initial|)
      ensures Users(postQ) == old(Users(postQ))
      ensures c < |old(update)| ==>
                && update == old(update)[c := Some(v)] && deliveries == old(deliveries) + [(c, v)]
                && postQ == old(postQ) + if old(update)[c].None? then [Finalize(c)] else []
      ensures c >= |old(update)| ==> update == old(update) && deliveries == old(deliveries) && postQ == old(postQ)
    {
      hide CellsScheduled, NodesScheduled, QueueSize, Users;
      if c < |update| {
        var first := update[c].None?;
        LastOfAppend(deliveries, c, v);
        CellUpdated(postQ, update, c, v);
        update, deliveries := update[c := Some(v)], deliveries + [(c, v)];
        if first {
          NodesUndisturbed(postQ, firings, Finalize(c));
          UsersAppend(postQ, Finalize(c));
          QueueSizeAppend(postQ, Finalize(c));
          postQ, posted := postQ + [Finalize(c)], posted + [Finalize(c)];
        }
      }
    }

    /** `impl::send`, as far as the partition is concerned. */
    method Fire(n: nat, v: V)
      requires Valid()
      modifies this`postQ, this`firings, this`posted
      ensures Valid() && old(posted) <= posted && QueueSize(postQ) <= old(QueueSize(postQ)) + 1
      ensures firings == FiredIn(Effect.Fire(n, v), old(firings))
      ensures n < |old(firings)| ==>
                && firings == old(firings)[n := [v] + old(firings)[n]]
                && postQ == old(postQ) + if old(firings)[n] == [] then [Clear(n)] else []
      ensures n >= |old(firings)| ==> firings == old(firings) && postQ == old(postQ)
      ensures Users(postQ) == old(Users(postQ))
    {
      hide CellsScheduled, NodesScheduled, CellsCurrent, QueueSize, Users;
      if n < |firings| {
        NodeFired(postQ, firings, n, v);
        if firings[n] == [] {
          CellsUndisturbed(postQ, update, Clear(n));
          UsersAppend(postQ, Clear(n));
          QueueSizeAppend(postQ, Clear(n));
          postQ, posted := postQ + [Clear(n)], posted + [Clear(n)];
        }
        firings := firings[n := [v] + firings[n]];
      }
    }

    /** `partition::post`. */
    method Post(id: nat, body: seq<Command<V>>)
      requires Valid()
      modifies this`postQ, this`posted
      ensures Valid() && postQ == old(postQ) + [User(id, body)] && posted == old(posted) + [User(id, body)]
      ensures QueueSize(postQ) == old(QueueSize(postQ)) + 1 + BodySize(body)
      ensures Users(postQ) == old(Users(postQ)) + [User(id, body)]
    {
      hide CellsScheduled, NodesScheduled, CellsCurrent, Users;
      var a := User(id, body);
      CellsUndisturbed(postQ, update, a);
      NodesUndisturbed(postQ, firings, a);
      UsersAppend(postQ, a);
      QueueSizeAppend(postQ, a);
      postQ, posted := postQ + [a], posted + [a];
    }

    /** What effects do to the partition while nothing is taken from the queue. */
    twostate predicate Did(es: seq<Effect<V>>)
      reads this
    {
      && Valid() && depth == old(depth) && processingPost == old(processingPost)
      && old(posted) <= posted && ran == old(ran) && current == old(current)
      && QueueSize(postQ) <= old(QueueSize(postQ)) + EffectsSize(es)
      && deliveries == old(deliveries) + DeliveriesOf(es, |initial|)
      && Users(postQ) == old(Users(postQ)) + PostsOf(es)
      && firings == FiredBy(es, old(firings))
    }

    /** Everything that happens between opening a transaction and its closing work. */
    method RunEffects(es: seq<Effect<V>>)
      requires Valid() && depth > 0
      modifies this
      ensures Did(es)
      decreases 0, 0, es, 0
    {
      hide Valid, Users, QueueSize, PostsOf, PostsIn, DeliveriesOf, DeliveriesIn, FiredBy, FiredIn, EffectsSize, EffectSize;
      NoEffects(firings, |initial|);
      if es != [] {
        FirstEffect(es, es[0], es[1..], |initial|, firings, Users(postQ), deliveries);
        RunEffect(es[0]);
        RunEffects(es[1..]);
      }
    }

    method RunEffect(e: Effect<V>)
      requires Valid() && depth > 0
      modifies this
      ensures Valid() && depth == old(depth) && processingPost == old(processingPost)
      ensures old(posted) <= posted && ran == old(ran) && current == old(current)
      ensures QueueSize(postQ) <= old(QueueSize(postQ)) + EffectSize(e)
      ensures deliveries == old(deliveries) + DeliveriesIn(e, |initial|)
      ensures Users(postQ) == old(Users(postQ)) + PostsIn(e)
      ensures firings == FiredIn(e, old(firings))
      decreases 0, 0, e, 0
    {
      hide Valid, Users, QueueSize;
      match e {
        case Deliver(c, v) => Hold(c, v);
        case Fire(n, v) => Fire(n, v);
        case Post(id, body) => Post(id, body);
        case Inner(inner) => Transact(inner);
      }
    }

    /** The queue has been worked off: all that was queued, and all that it led to, has run in order, and
        its values have been delivered after `first`. */
    twostate predicate WorkedOff(first: seq<Effect<V>>)
      reads this
    {
      var q := old(Users(postQ)) + PostsOf(first);
      && Valid() && depth == 0 && processingPost == old(processingPost)
      && old(posted) <= posted && postQ == [] && ran == posted
      && Users(ran) == old(Users(ran)) + Served(q)
      && deliveries == old(deliveries) + DeliveriesOf(first, |initial|) + ServedDeliveries(q, |initial|)
    }

    /** `transaction_` opened and closed around the given effects; only the outermost one processes. */
    method Transact(es: seq<Effect<V>>)
      requires Valid()
      modifies this
      ensures Valid()
      ensures if old(processingPost) || old(depth) > 0 then Did(es) else WorkedOff(es)
      ensures old(Quiet()) && Plain(es) && es != [] && es[|es| - 1].Deliver? && es[|es| - 1].cell < |current| ==>
                current[es[|es| - 1].cell] == es[|es| - 1].value
      decreases if processingPost || depth > 0 then 0 else 1, if depth > 0 then 0 else 2, es, 1
    {
      hide CellsScheduled, NodesScheduled, CellsCurrent, Users, QueueSize, Served, ServedDeliveries, PostsOf, DeliveriesOf,
           FiredBy, EffectsSize;
      depth := depth + 1;
      RunEffects(es);
      NoEffects(firings, |initial|);
      if depth == 1 {
        depth := depth - 1;
        ghost var q, ds := Users(postQ), deliveries;
        assert q + [] == q && ds + [] == ds;
        ProcessPost();
        if Plain(es) && old(Quiet()) {
          PlainPosts(es);
          assert Users(old(postQ)) + [] == [];
          LastSettled(initial, current, update, postQ, old(deliveries), es, deliveries);
        }
      } else {
        depth := depth - 1;
      }
    }

    /** `process_post`: run the queue in order until it is empty; a call from within a running action
        returns at once. */
    method ProcessPost()
      requires Valid() && depth == 0
      modifies this
      ensures Valid()
      ensures if old(processingPost) then Did([]) else WorkedOff([])
      decreases if processingPost then 0 else 1, 1
    {
      hide CellsScheduled, NodesScheduled, CellsCurrent, Users, QueueSize, Served, ServedDeliveries, PostsOf, DeliveriesOf,
           FiredBy, EffectsSize, PostedBy, DeliveredBy;
      NoEffects(firings, |initial|);
      if !processingPost {
        processingPost := true;
        ghost var q := Users(postQ);
        while postQ != []
          invariant Valid() && depth == 0 && processingPost && old(posted) <= posted
          invariant Users(ran) + Served(Users(postQ)) == old(Users(ran)) + Served(q)
          invariant deliveries + ServedDeliveries(Users(postQ), |initial|) == old(deliveries) + ServedDeliveries(q, |initial|)
          decreases QueueSize(postQ)
        {
          ServedStep(postQ, |initial|);
          UsersConcat(ran, [postQ[0]]);
          RunNext();
        }
        processingPost := false;
      }
    }

    /** Pop the front action and run it. */
    method RunNext()
      requires Valid() && depth == 0 && processingPost && postQ != []
      modifies this
      ensures Valid() && depth == 0 && processingPost
      ensures old(posted) <= posted && ran == old(ran) + [old(postQ)[0]]
      ensures QueueSize(postQ) < old(QueueSize(postQ))
      ensures Users(postQ) == old(Users(postQ[1..])) + PostedBy(old(postQ)[0])
      ensures deliveries == old(deliveries) + DeliveredBy(old(postQ)[0], |initial|)
      decreases 0, 4
    {
      CountedHead(postQ);
      match postQ[0] {
        case Finalize(c) => RunFinalize(c);
        case Clear(n) => RunClear(n);
        case User(_, body) =>
          postQ, ran := postQ[1..], ran + [postQ[0]];
          RunBody(body);
          AsEffectsSize(body);
      }
    }

    /** `cell_state::finalize`: there always is an update to take. */
    method RunFinalize(c: nat)
      requires Valid() && postQ != [] && postQ[0] == Finalize(c)
      modifies this`postQ, this`ran, this`current, this`update
      ensures Valid() && postQ == old(postQ)[1..] && ran == old(ran) + [Finalize(c)]
      ensures c < |old(update)| == |old(current)| && old(update)[c].Some?
      ensures current == old(current)[c := old(update)[c].value] && update == old(update)[c := None]
    {
      CountedHead(postQ);
      assert Finalize(c) in multiset(postQ);
      postQ, ran := postQ[1..], ran + [Finalize(c)];
      current, update := current[c := update[c].value], update[c := None];
    }

    method RunClear(n: nat)
      requires Valid() && postQ != [] && postQ[0] == Clear(n)
      modifies this`postQ, this`ran, this`firings
      ensures Valid() && postQ == old(postQ)[1..] && ran == old(ran) + [Clear(n)]
      ensures n < |old(firings)| && old(firings)[n] != [] && firings == old(firings)[n := []]
    {
      CountedHead(postQ);
      assert Clear(n) in multiset(postQ);
      postQ, ran := postQ[1..], ran + [Clear(n)];
      firings := firings[n := []];
    }

    method RunBody(body: seq<Command<V>>)
      requires Valid() && depth == 0 && processingPost
      modifies this
      ensures Did(AsEffects(body))
      decreases 0, 3, body
    {
      hide Valid, Users, QueueSize, PostsOf, PostsIn, DeliveriesOf, DeliveriesIn, FiredBy, FiredIn, EffectsSize, EffectSize;
      NoEffects(firings, |initial|);
      if body != [] {
        ghost var e, es := AsEffect(body[0]), AsEffects(body);
        assert es[1..] == AsEffects(body[1..]);
        FirstEffect(es, e, es[1..], |initial|, firings, Users(postQ), deliveries);
        RunCommand(body[0]);
        RunBody(body[1..]);
      }
    }

    method RunCommand(c: Command<V>)
      requires Valid() && depth == 0 && processingPost
      modifies this
      ensures Valid() && depth == old(depth) && processingPost == old(processingPost)
      ensures old(posted) <= posted && ran == old(ran) && current == old(current)
      ensures QueueSize(postQ) <= old(QueueSize(postQ)) + EffectSize(AsEffect(c))
      ensures deliveries == old(deliveries) + DeliveriesIn(AsEffect(c), |initial|)
      ensures Users(postQ) == old(Users(postQ)) + PostsIn(AsEffect(c))
      ensures firings == FiredIn(AsEffect(c), old(firings))
      decreases 0, 2, c
    {
      hide Valid, Users, QueueSize;
      match c {
        case PostNow(id, b) => Post(id, b);
        case Transact(es) => Transact(es);
      }
    }
  }

  /** Between top-level transactions each cell holds the last value ever delivered to it, or its initial
      value, and every posted action has been run, once and in the order of posting. */
  lemma QuietMeansSettled<V>(p: Partition<V>)
    requires p.Quiet()
    ensures p.ran == p.posted
    ensures forall c :: 0 <= c < |p.current| ==>
              |p.initial| == |p.current| && p.current[c] == ValueOr(LastOf(p.deliveries, c), p.initial[c])
    ensures forall n :: 0 <= n < |p.firings| ==> p.firings[n] == []
  {
    assert forall c: nat :: multiset(p.postQ)[Finalize(c)] == 0;
    assert forall n: nat :: multiset(p.postQ)[Clear(n)] == 0;
  }
}
