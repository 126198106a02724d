/** Picking elements out of a sequence. */
module Sequences {
  /** `r` is what stands in `vs` at the positions `ks`, which increase. */
  ghost predicate Picks<T>(vs: seq<T>, ks: seq<nat>, r: seq<T>) {
    && |ks| == |r| && (forall i, j :: 0 <= i < j < |ks| ==> ks[i] < ks[j])
    && (forall i :: 0 <= i < |ks| ==> ks[i] < |vs| && r[i] == vs[ks[i]])
  }

  /** Positions chosen from all but the last element, with or without the last one. */
  lemma PicksLast<T>(vs: seq<T>, ks: seq<nat>, r: seq<T>)
    requires vs != [] && Picks(vs[..|vs| - 1], ks, r)
    ensures Picks(vs, ks, r) && Picks(vs, ks + [|vs| - 1], r + [vs[|vs| - 1]])
  {}

  /** Each position one further on. */
  function Later(ks: seq<nat>): (ls: seq<nat>)
    ensures |ls| == |ks| && forall i :: 0 <= i < |ks| ==> ls[i] == ks[i] + 1
  {
    seq(|ks|, i requires 0 <= i < |ks| => ks[i] + 1)
  }

  lemma LaterMember(ks: seq<nat>, i: nat)
    ensures i in Later(ks) <==> i > 0 && i - 1 in ks
  {
    if i > 0 && i - 1 in ks {
      var j :| 0 <= j < |ks| && ks[j] == i - 1;
      assert Later(ks)[j] == i;
    }
  }

  /** Positions chosen from all but the first element, with or without the first one. */
  lemma PicksFirst<T>(vs: seq<T>, ks: seq<nat>, r: seq<T>)
    requires vs != [] && Picks(vs[1..], ks, r)
    ensures Picks(vs, Later(ks), r) && Picks(vs, [0] + Later(ks), [vs[0]] + r)
  {}
}
