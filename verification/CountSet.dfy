/** The three handle counters packed into one machine word: a flag bit and three small fields until one of
    them would overflow, then a pointer to a separate object with full-width counters for good. */
module CountSet {
  datatype Handle = Strong | Stream | Node

  /** What the packed word stands for: three plain counters. */
  datatype Counts = Counts(strong: nat, stream: nat, node: nat) {
    function Get(k: Handle): nat {
      match k
      case Strong => strong
      case Stream => stream
      case Node => node
    }

    function Inc(k: Handle): Counts {
      match k
      case Strong => Counts(strong + 1, stream, node)
      case Stream => Counts(strong, stream + 1, node)
      case Node => Counts(strong, stream, node + 1)
    }

    function Dec(k: Handle): Counts
      requires Get(k) > 0
    {
      match k
      case Strong => Counts(strong - 1, stream, node)
      case Stream => Counts(strong, stream - 1, node)
      case Node => Counts(strong, stream, node - 1)
    }

    /** The listener is still wanted: strongly, or by both a stream and its node. */
    predicate Active() {
      strong > 0 || (node > 0 && stream > 0)
    }

    predicate Alive() {
      strong > 0 || node > 0 || stream > 0
    }

    function Total(): nat {
      strong + stream + node
    }
  }

  /** Each operation is about the counter of its own handle kind. */
  lemma CountersApart(c: Counts)
    ensures c.Get(Strong) == c.strong && c.Get(Stream) == c.stream && c.Get(Node) == c.node
    ensures forall k, j: Handle :: c.Inc(k).Get(j) == c.Get(j) + if j == k then 1 else 0
    ensures forall k, j: Handle :: c.Get(k) > 0 ==> c.Dec(k).Get(j) == c.Get(j) - if j == k then 1 else 0
    ensures c.Active() <==> c.strong > 0 || (c.node > 0 && c.stream > 0)
    ensures c.Alive() <==> c.strong > 0 || c.stream > 0 || c.node > 0
  {}

  const UNSIGNED_LIMIT: nat := 0x1_0000_0000

  /** How many values each small field has. */
  datatype Layout = Layout(strong: nat, stream: nat, node: nat) {
    predicate Ok() {
      2 <= strong <= UNSIGNED_LIMIT && 2 <= stream <= UNSIGNED_LIMIT && 2 <= node <= UNSIGNED_LIMIT
    }

    function Size(k: Handle): nat {
      match k
      case Strong => strong
      case Stream => stream
      case Node => node
    }

    predicate Holds(c: Counts) {
      c.strong < strong && c.stream < stream && c.node < node
    }
  }

  /** Fields of 1, 14 and 14 bits on a 32-bit machine, of 1, 31 and 31 bits on a 64-bit one. */
  const LAYOUT32: Layout := Layout(2, 0x4000, 0x4000)
  const LAYOUT64: Layout := Layout(2, 0x8000_0000, 0x8000_0000)

  // ---- the bits ----

  /** The word that holds small fields: from the lowest bit up the flag, strong, stream and node. */
  function Packed(l: Layout, c: Counts): nat {
    1 + 2 * (c.strong + l.strong * (c.stream + l.stream * c.node))
  }

  predicate IsSmall(word: nat) {
    word % 2 == 1
  }

  /** What the three fields read. */
  function Fields(l: Layout, word: nat): Counts
    requires l.Ok()
  {
    var rest := word / 2 / l.strong;
    Counts((word / 2) % l.strong, rest % l.stream, rest / l.stream % l.node)
  }

  /** One in the field's lowest bit. */
  function Unit(l: Layout, k: Handle): nat {
    match k
    case Strong => 2
    case Stream => 2 * l.strong
    case Node => 2 * (l.strong * l.stream)
  }

  lemma Split(r: nat, n: nat, q: nat)
    requires r < n
    ensures (r + n * q) / n == q && (r + n * q) % n == r
  {
    var d, m := (r + n * q) / n, (r + n * q) % n;
    assert r + n * q == n * d + m;
    assert n * (d - q) == r - m;
    if d != q {
      AtLeastOnce(n, if d > q then d - q else q - d);
    }
  }

  lemma AtLeastOnce(n: nat, k: nat)
    requires k >= 1
    ensures n * k >= n
  {}

  lemma ReadFields(l: Layout, word: nat, c: Counts, fields: nat, high: nat)
    requires l.Ok() && word / 2 == fields && fields / l.strong == high && fields % l.strong == c.strong
    requires high / l.stream == c.node < l.node && high % l.stream == c.stream
    ensures Fields(l, word) == c
  {
    Split(c.node, l.node, 0);
  }

  /** The fields do not disturb each other or the flag. */
  lemma PackedReadsBack(l: Layout, c: Counts)
    requires l.Ok() && l.Holds(c)
    ensures IsSmall(Packed(l, c)) && Fields(l, Packed(l, c)) == c
  {
    hide Fields;
    var high := c.stream + l.stream * c.node;
    var fields := c.strong + l.strong * high;
    Split(1, 2, fields);
    Split(c.strong, l.strong, high);
    Split(c.stream, l.stream, c.node);
    ReadFields(l, Packed(l, c), c, fields, high);
  }

  /** Adding one in the lowest bit of a field that is not full counts up that field alone. */
  lemma PackedCountsUp(l: Layout, c: Counts, k: Handle)
    ensures Packed(l, c.Inc(k)) == Packed(l, c) + Unit(l, k)
  {
    match k
    case Strong =>
    case Stream =>
      assert l.strong * (c.stream + 1 + l.stream * c.node) == l.strong * (c.stream + l.stream * c.node) + l.strong;
    case Node =>
      assert l.stream * (c.node + 1) == l.stream * c.node + l.stream;
      assert l.strong * (c.stream + l.stream * c.node + l.stream)
          == l.strong * (c.stream + l.stream * c.node) + l.strong * l.stream;
  }

  /** On either machine the packed fields fit into one word. */
  lemma PackedFitsWord(c: Counts)
    ensures LAYOUT32.Ok() && (LAYOUT32.Holds(c) ==> Packed(LAYOUT32, c) < 0x1_0000_0000)
    ensures LAYOUT64.Ok() && (LAYOUT64.Holds(c) ==> Packed(LAYOUT64, c) < 0x1_0000_0000_0000_0000)
  {}

  // ---- the counters ----

  /** What the word means: small counters in their fields, or the large counters it points to. */
  datatype Word = Small(small: Counts, layout: Layout) | Large(large: Counts)

  /** The counters are within what their fields or `unsigned` allow. */
  ghost predicate Fits(w: Word) {
    match w
    case Small(c, l) => l.Ok() && l.Holds(c)
    case Large(c) => c.strong < UNSIGNED_LIMIT && c.stream < UNSIGNED_LIMIT && c.node < UNSIGNED_LIMIT
  }

  function View(w: Word): Counts {
    match w
    case Small(c, _) => c
    case Large(c) => c
  }

  /** An `unsigned` increment, which wraps around. */
  function Bumped(c: Counts, k: Handle): Counts {
    match k
    case Strong => c.(strong := (c.strong + 1) % UNSIGNED_LIMIT)
    case Stream => c.(stream := (c.stream + 1) % UNSIGNED_LIMIT)
    case Node => c.(node := (c.node + 1) % UNSIGNED_LIMIT)
  }

  /** `inc_strong`, `inc_stream` and `inc_node`. */
  function IncWord(w: Word, k: Handle): Word {
    match w
    case Small(c, l) => if c.Get(k) + 1 == l.Size(k) then Large(Bumped(c, k)) else Small(c.Inc(k), l)
    case Large(c) => Large(Bumped(c, k))
  }

  /** `dec_strong`, `dec_stream` and `dec_node`; the large form is never left. */
  function DecWord(w: Word, k: Handle): Word
    requires View(w).Get(k) > 0
  {
    match w
    case Small(c, l) => Small(c.Dec(k), l)
    case Large(c) => Large(c.Dec(k))
  }

  lemma IncIsPlain(w: Word, k: Handle)
    requires Fits(w) && View(w).Get(k) + 1 < UNSIGNED_LIMIT
    ensures Fits(IncWord(w, k)) && View(IncWord(w, k)) == View(w).Inc(k)
  {
    match k
    case Strong =>
    case Stream =>
    case Node =>
  }

  lemma DecIsPlain(w: Word, k: Handle)
    requires Fits(w) && View(w).Get(k) > 0
    ensures Fits(DecWord(w, k)) && View(DecWord(w, k)) == View(w).Dec(k)
  {
    match k
    case Strong =>
    case Stream =>
    case Node =>
  }

  /** On every word, small or large and across the switch, the packed operations are the plain ones, as
      long as a counter stays below the width of `unsigned`. */
  lemma PackedIsPlain(w: Word, k: Handle)
    requires Fits(w)
    ensures View(w).Get(k) + 1 < UNSIGNED_LIMIT ==> Fits(IncWord(w, k)) && View(IncWord(w, k)) == View(w).Inc(k)
    ensures View(w).Get(k) > 0 ==> Fits(DecWord(w, k)) && View(DecWord(w, k)) == View(w).Dec(k)
    ensures View(w).Get(k) + 1 < UNSIGNED_LIMIT ==> View(IncWord(w, k)).Get(k) > 0 && View(DecWord(IncWord(w, k), k)) == View(w)
  {
    hide Fits, View, IncWord, DecWord;
    if View(w).Get(k) > 0 {
      DecIsPlain(w, k);
    }
    if View(w).Get(k) + 1 < UNSIGNED_LIMIT {
      IncIsPlain(w, k);
      DecIsPlain(IncWord(w, k), k);
    }
  }

  /** The small form lasts exactly as long as the field can still count; the large form lasts for good. */
  lemma LargeWhenFull(w: Word, k: Handle)
    requires Fits(w)
    ensures w.Small? ==> (IncWord(w, k).Small? <==> w.small.Get(k) + 1 < w.layout.Size(k))
    ensures w.Large? ==> IncWord(w, k).Large?
    ensures View(w).Get(k) > 0 ==> (DecWord(w, k).Small? <==> w.Small?)
  {
    match k
    case Strong =>
    case Stream =>
    case Node =>
  }

  /** A counter that would outgrow `unsigned` wraps to zero: the bound above is exact. */
  lemma WrapsAtLimit(w: Word, k: Handle)
    requires Fits(w)
    ensures View(IncWord(w, k)) == View(w).Inc(k) <==> View(w).Get(k) + 1 < UNSIGNED_LIMIT
  {
    match k
    case Strong =>
    case Stream =>
    case Node =>
  }

  /** The object itself, updated in place. The word is a number; `large` is the separate object it points to
      while its lowest bit is clear. */
  class CountSet {
    const layout: Layout
    var word: nat
    var large: Counts

    ghost predicate Valid()
      reads this
    {
      layout.Ok() && Fits(Meaning()) && (IsSmall(word) ==> word == Packed(layout, Fields(layout, word)))
    }

    ghost function Meaning(): Word
      requires layout.Ok()
      reads this
    {
      if IsSmall(word) then Small(Fields(layout, word), layout) else Large(large)
    }

    constructor (layout: Layout)
      requires layout.Ok()
      ensures this.layout == layout && Valid() && Meaning() == Small(Counts(0, 0, 0), layout)
    {
      PackedReadsBack(layout, Counts(0, 0, 0));
      this.layout := layout;
      word, large := Packed(layout, Counts(0, 0, 0)), Counts(0, 0, 0);
    }

    /** The allocator supplies an even address, which clears the flag. */
    method ToLarge(address: nat)
      requires Valid() && IsSmall(word) && !IsSmall(address)
      modifies this
      ensures Valid() && Meaning() == Large(View(old(Meaning())))
    {
      large := Fields(layout, word);
      word := address;
    }

    method Inc(k: Handle, address: nat)
      requires Valid() && View(Meaning()).Get(k) + 1 < UNSIGNED_LIMIT && !IsSmall(address)
      modifies this
      ensures Valid() && Meaning() == IncWord(old(Meaning()), k) && View(Meaning()) == View(old(Meaning())).Inc(k)
    {
      PackedIsPlain(Meaning(), k);
      if IsSmall(word) {
        var c := Fields(layout, word);
        if c.Get(k) + 1 == layout.Size(k) {
          ToLarge(address);
        } else {
          PackedCountsUp(layout, c, k);
          PackedReadsBack(layout, c.Inc(k));
          word := word + Unit(layout, k);
          return;
        }
      }
      large := Bumped(large, k);
    }

    method Dec(k: Handle)
      requires Valid() && View(Meaning()).Get(k) > 0
      modifies this
      ensures Valid() && Meaning() == DecWord(old(Meaning()), k) && View(Meaning()) == View(old(Meaning())).Dec(k)
    {
      PackedIsPlain(Meaning(), k);
      if IsSmall(word) {
        ghost var c := Fields(layout, word).Dec(k);
        PackedCountsUp(layout, c, k);
        PackedReadsBack(layout, c);
        DecInc(Fields(layout, word), k);
        word := word - Unit(layout, k);
      } else {
        large := large.Dec(k);
      }
    }
  }

  lemma DecInc(c: Counts, k: Handle)
    requires c.Get(k) > 0
    ensures c.Dec(k).Inc(k) == c
  {}
}
