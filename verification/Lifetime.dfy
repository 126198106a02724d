/** The lifetime of a listener's implementation under any interleaving of handles being taken and dropped,
    over the packed counters. A release that leaves the listener unwanted runs the cleanups outside the
    lock, keeping the object alive meanwhile with a strong count of its own. */
module Lifetime {
  import opened CountSet

  /** A release that is past its first unlock: about to walk the list of cleanups, running them from number
      `at` on, or done with them and about to take the lock again. */
  datatype Frame = Entering | Cleaning(at: nat) | Leaving

  /** `handles` are those the program holds. `registered`, `ran` and `late` record the cleanups added, run,
      and added while the cleanups were being run; `frees` counts deletions of the object. */
  datatype State = State(counts: Word, func: bool, cleanups: seq<nat>, frames: seq<Frame>, handles: Counts, frees: nat,
                         registered: multiset<nat>, ran: multiset<nat>, late: multiset<nat>)

  /** The object just created, held by one strong handle. */
  function Start(layout: Layout): State {
    State(Small(Counts(1, 0, 0), layout), true, [], [], Counts(1, 0, 0), 0, multiset{}, multiset{}, multiset{})
  }

  /** `intrusive_ptr_add_ref`: a handle of any kind is made from a handle of some kind. */
  ghost predicate AddRef(s: State, k: Handle, t: State) {
    && s.handles.Total() > 0 && View(s.counts).Get(k) + 1 < UNSIGNED_LIMIT
    && t == s.(counts := IncWord(s.counts, k), handles := s.handles.Inc(k))
  }

  /** The end of `update_and_unlock`, under the lock. */
  function FreeIfDead(s: State): State {
    if !View(s.counts).Alive() then s.(frees := s.frees + 1) else s
  }

  /** `intrusive_ptr_release`, up to its first unlock. */
  ghost predicate Release(s: State, k: Handle, t: State) {
    && s.handles.Get(k) > 0 && View(s.counts).Get(k) > 0
    && var d := s.(counts := DecWord(s.counts, k), handles := s.handles.Dec(k));
       t == if d.func && !View(d.counts).Active()
            then d.(counts := IncWord(d.counts, Strong), frames := d.frames + [Entering])
            else FreeIfDead(d)
  }

  /** The walk over the list begins. */
  ghost predicate Begin(s: State, f: nat, t: State) {
    f < |s.frames| && s.frames[f].Entering? && t == s.(frames := s.frames[f := Cleaning(0)])
  }

  /** The next cleanup runs. What it does to handles of this object are steps of their own. */
  ghost predicate RunCleanup(s: State, f: nat, t: State) {
    && f < |s.frames| && s.frames[f].Cleaning? && s.frames[f].at < |s.cleanups|
    && t == s.(frames := s.frames[f := Cleaning(s.frames[f].at + 1)], ran := s.ran + multiset{s.cleanups[s.frames[f].at]})
  }

  /** The cleanups are over: the list is cleared and the function deleted. */
  ghost predicate EndCleanups(s: State, f: nat, t: State) {
    && f < |s.frames| && s.frames[f].Cleaning? && s.frames[f].at >= |s.cleanups|
    && t == s.(frames := s.frames[f := Leaving], cleanups := [], func := false)
  }

  /** Under the lock again: drop the strong count and free the object if nothing is left. */
  ghost predicate Leave(s: State, f: nat, t: State) {
    && f < |s.frames| && s.frames[f].Leaving? && View(s.counts).strong > 0
    && t == FreeIfDead(s.(counts := DecWord(s.counts, Strong), frames := s.frames[..f] + s.frames[f + 1..]))
  }

  /** `unsafe_add_cleanup`: pushed in front while the function is there, otherwise run at once. A list
      being walked is entered behind the walker, which is too late to be run. */
  ghost predicate AddCleanup(s: State, x: nat, t: State) {
    && s.handles.Total() > 0
    && var r := s.(registered := s.registered + multiset{x});
       t == if !s.func then r.(ran := r.ran + multiset{x})
            else if s.frames == [] || s.frames[0].Entering? then r.(cleanups := [x] + r.cleanups)
            else r.(cleanups := [x] + r.cleanups, frames := Shifted(r.frames), late := r.late + multiset{x})
  }

  function Shifted(fs: seq<Frame>): (r: seq<Frame>)
    ensures |r| == |fs|
    ensures forall i :: 0 <= i < |fs| ==> r[i] == if fs[i].Cleaning? then Cleaning(fs[i].at + 1) else fs[i]
  {
    if fs == [] then [] else [if fs[0].Cleaning? then Cleaning(fs[0].at + 1) else fs[0]] + Shifted(fs[1..])
  }

  datatype Move =
    | DoAddRef(k: Handle) | DoRelease(k: Handle)
    | DoBegin(f: nat) | DoRun(f: nat) | DoEnd(f: nat) | DoLeave(f: nat) | DoAdd(x: nat)

  ghost predicate Step(s: State, m: Move, t: State) {
    match m
    case DoAddRef(k) => AddRef(s, k, t)
    case DoRelease(k) => Release(s, k, t)
    case DoBegin(f) => Begin(s, f, t)
    case DoRun(f) => RunCleanup(s, f, t)
    case DoEnd(f) => EndCleanups(s, f, t)
    case DoLeave(f) => Leave(s, f, t)
    case DoAdd(x) => AddCleanup(s, x, t)
  }

  ghost predicate IsRun(ss: seq<State>, ms: seq<Move>) {
    |ss| == |ms| + 1 && (exists l: Layout :: l.Ok() && ss[0] == Start(l)) && forall i :: 0 <= i < |ms| ==> Step(ss[i], ms[i], ss[i + 1])
  }

  // ---- what every step keeps ----

  /** The counters are the handles held plus one strong count for a cleaning in progress, of which there
      is at most one. */
  ghost predicate CountsOk(s: State) {
    && Fits(s.counts) && |s.frames| <= 1
    && View(s.counts) == s.handles.(strong := s.handles.strong + |s.frames|)
  }

  /** Cleaning happens while the function is there, and is under way as soon as it is not wanted. */
  ghost predicate PhaseOk(s: State) {
    && (s.frames != [] ==> (s.frames[0].Leaving? <==> !s.func))
    && (s.func && s.frames == [] ==> s.handles.Active())
    && (!s.func ==> s.cleanups == [])
  }

  /** Where the next cleanup to run stands. */
  function At(s: State): nat {
    if s.frames != [] && s.frames[0].Cleaning? then s.frames[0].at else 0
  }

  /** Every cleanup added has run, is still to run, or was added too late, exactly once. */
  ghost predicate CleanupsOk(s: State) {
    At(s) <= |s.cleanups| && s.registered == s.ran + multiset(s.cleanups[At(s)..]) + s.late
  }

  /** The object is freed once and only once nothing refers to it any more. */
  ghost predicate FreeOk(s: State) {
    s.frees == if s.handles.Total() == 0 && s.frames == [] then 1 else 0
  }

  ghost predicate Inv(s: State) {
    CountsOk(s) && PhaseOk(s) && CleanupsOk(s) && FreeOk(s)
  }

  // ---- what the steps do to handles, cleanings and the object ----

  /** Taking a handle changes the number of handles of that kind, and nothing else of the object's state. */
  lemma AddRefTakes(s: State, k: Handle, t: State)
    requires Inv(s) && AddRef(s, k, t)
    ensures t.handles.strong == s.handles.strong + (if k == Strong then 1 else 0)
    ensures t.handles.stream == s.handles.stream + (if k == Stream then 1 else 0)
    ensures t.handles.node == s.handles.node + (if k == Node then 1 else 0)
    ensures t == s.(counts := t.counts, handles := t.handles)
  {}

  /** Dropping a handle starts the cleanups exactly when it leaves no strong handle and not both a stream and
      a node handle, once; and it frees the object exactly when it leaves no handle and no cleaning. */
  lemma ReleaseDrops(s: State, k: Handle, t: State)
    requires Inv(s) && Release(s, k, t)
    ensures t.handles.strong == s.handles.strong - (if k == Strong then 1 else 0)
    ensures t.handles.stream == s.handles.stream - (if k == Stream then 1 else 0)
    ensures t.handles.node == s.handles.node - (if k == Node then 1 else 0)
    ensures t == s.(counts := t.counts, handles := t.handles, frames := t.frames, frees := t.frees)
    ensures s.frames != [] ==> t.frames == s.frames
    ensures s.frames == [] ==>
              t.frames == if s.func && t.handles.strong == 0 && (t.handles.stream == 0 || t.handles.node == 0)
                          then [Entering] else []
    ensures t.frees == s.frees + if t.handles.strong == t.handles.stream == t.handles.node == 0 && t.frames == [] then 1 else 0
  {
    hide Fits, IncWord, DecWord, View;
    PackedIsPlain(s.counts, k);
  }

  /** The end of a cleaning frees the object exactly when no handle is left. */
  lemma LeaveFrees(s: State, f: nat, t: State)
    requires Inv(s) && Leave(s, f, t)
    ensures t == s.(counts := t.counts, frames := [], frees := t.frees)
    ensures t.frees == s.frees + if s.handles.strong == s.handles.stream == s.handles.node == 0 then 1 else 0
  {
    hide Fits, IncWord, DecWord, View;
    PackedIsPlain(s.counts, Strong);
    assert t.frames == [];
  }

  /** An added cleanup is queued ahead of the others while the list is not being walked, dropped while it is,
      and run at once after that. */
  lemma AddCleanupQueues(s: State, x: nat, t: State)
    requires Inv(s) && AddCleanup(s, x, t)
    ensures t.registered == s.registered + multiset{x} && t.handles == s.handles && t.frees == s.frees
    ensures s.func && (s.frames == [] || s.frames == [Entering]) ==>
              t.cleanups == [x] + s.cleanups && t.ran == s.ran && t.late == s.late && t.frames == s.frames
    ensures s.frames != [] && s.frames[0].Cleaning? ==> t.ran == s.ran && t.late == s.late + multiset{x}
    ensures !s.func ==> t.ran == s.ran + multiset{x} && t.late == s.late && t.cleanups == s.cleanups
  {
    assert s.frames != [] && s.frames[0].Entering? ==> s.frames == [Entering] && Shifted(s.frames) == s.frames;
    hide Fits;
  }

  lemma AddRefKeeps(s: State, k: Handle, t: State)
    requires Inv(s) && AddRef(s, k, t)
    ensures Inv(t)
  {
    PackedIsPlain(s.counts, k);
  }

  lemma ReleaseKeeps(s: State, k: Handle, t: State)
    requires Inv(s) && Release(s, k, t)
    ensures Inv(t)
  {
    PackedIsPlain(s.counts, k);
    PackedIsPlain(DecWord(s.counts, k), Strong);
  }

  lemma BeginKeeps(s: State, f: nat, t: State)
    requires Inv(s) && Begin(s, f, t)
    ensures Inv(t)
  {
    assert f == 0 && t.frames == [Cleaning(0)] && At(s) == At(t) == 0;
    hide Fits, View;
  }

  lemma RunCleanupKeeps(s: State, f: nat, t: State)
    requires Inv(s) && RunCleanup(s, f, t)
    ensures Inv(t)
  {
    var i := s.frames[f].at;
    assert s.cleanups[i..] == [s.cleanups[i]] + s.cleanups[i + 1..];
  }

  lemma EndCleanupsKeeps(s: State, f: nat, t: State)
    requires Inv(s) && EndCleanups(s, f, t)
    ensures Inv(t)
  {
    assert f == 0 && At(s) == |s.cleanups| && s.frames[f := Leaving] == [Leaving];
    assert s.cleanups[|s.cleanups|..] == [] && t.frames == [Leaving] && At(t) == 0;
    assert t.cleanups == [] && t.cleanups[0..] == [];
    hide Fits, View;
  }

  lemma LeaveKeeps(s: State, f: nat, t: State)
    requires Inv(s) && Leave(s, f, t)
    ensures Inv(t)
  {
    PackedIsPlain(s.counts, Strong);
    assert t.frames == [] && t.cleanups == s.cleanups == [];
  }

  lemma AddCleanupKeeps(s: State, x: nat, t: State)
    requires Inv(s) && AddCleanup(s, x, t)
    ensures Inv(t)
  {
    hide *;
    AddedRest(s, x, t);
    AddedCleanups(s, x, t);
    InvParts(t);
  }

  lemma InvParts(s: State)
    requires CountsOk(s) && PhaseOk(s) && CleanupsOk(s) && FreeOk(s)
    ensures Inv(s)
  {
    hide CountsOk, PhaseOk, CleanupsOk, FreeOk;
  }

  lemma AddedRest(s: State, x: nat, t: State)
    requires Inv(s) && AddCleanup(s, x, t)
    ensures CountsOk(t) && PhaseOk(t) && FreeOk(t)
  {
    hide Fits, View;
  }

  lemma AddedCleanups(s: State, x: nat, t: State)
    requires Inv(s) && AddCleanup(s, x, t)
    ensures CleanupsOk(t)
  {
    hide Fits, View;
    if s.func {
      AddedAhead(s, x, t);
    }
  }

  lemma AddedAhead(s: State, x: nat, t: State)
    requires At(s) <= |s.cleanups| && |s.frames| <= 1 && AddCleanup(s, x, t) && s.func
    requires s.frames != [] ==> !s.frames[0].Leaving?
    ensures At(t) <= |t.cleanups|
    ensures s.frames == [] || s.frames[0].Entering? ==> t.cleanups[At(t)..] == [x] + s.cleanups[At(s)..]
    ensures s.frames != [] && s.frames[0].Cleaning? ==> t.cleanups[At(t)..] == s.cleanups[At(s)..]
  {
    assert t.cleanups == [x] + s.cleanups;
  }

  lemma {:induction false} RunKeeps(ss: seq<State>, ms: seq<Move>)
    requires IsRun(ss, ms)
    ensures Inv(ss[|ms|])
    decreases |ms|
  {
    if ms != [] {
      var k := |ms| - 1;
      RunKeeps(ss[..k + 1], ms[..k]);
      var s, m, t := ss[k], ms[k], ss[k + 1];
      assert Step(s, m, t);
      match m
      case DoAddRef(h) => AddRefKeeps(s, h, t);
      case DoRelease(h) => ReleaseKeeps(s, h, t);
      case DoBegin(f) => BeginKeeps(s, f, t);
      case DoRun(f) => RunCleanupKeeps(s, f, t);
      case DoEnd(f) => EndCleanupsKeeps(s, f, t);
      case DoLeave(f) => LeaveKeeps(s, f, t);
      case DoAdd(x) => AddCleanupKeeps(s, x, t);
    }
  }

  /** In every interleaving the object is freed at most once, exactly when no handle and no cleaning is
      left; by then the function is gone, the list is empty and every cleanup has run exactly once, those
      added during the cleaning apart; and nothing can happen to it any more. */
  lemma FreedOnceAfterCleanups(ss: seq<State>, ms: seq<Move>)
    requires IsRun(ss, ms)
    ensures var s := ss[|ms|];
            && s.frees <= 1
            && (s.frees == 1 <==> s.handles.strong == s.handles.stream == s.handles.node == 0 && s.frames == [])
            && (s.frees == 1 ==> !s.func && s.cleanups == [] && s.registered == s.ran + s.late)
            && (s.frees == 1 ==> forall m, t :: !Step(s, m, t))
  {
    hide Inv, Step;
    RunKeeps(ss, ms);
    var s := ss[|ms|];
    FreedMeans(s);
    if s.frees == 1 {
      forall m, t
        ensures !Step(s, m, t)
      {
        NothingAfterFree(s, m, t);
      }
    }
  }

  lemma FreedMeans(s: State)
    requires Inv(s)
    ensures s.frees <= 1
    ensures s.frees == 1 <==> s.handles.strong == s.handles.stream == s.handles.node == 0 && s.frames == []
    ensures s.frees == 1 ==> !s.func && s.cleanups == [] && s.registered == s.ran + s.late
  {
    hide CountsOk, CleanupsOk, PhaseOk;
    if s.frees == 1 {
      NotWanted(s);
      NothingLeftToRun(s);
    }
  }

  lemma NotWanted(s: State)
    requires PhaseOk(s) && s.handles.Total() == 0 && s.frames == []
    ensures !s.func && s.cleanups == []
  {}

  lemma NothingLeftToRun(s: State)
    requires CleanupsOk(s) && s.frames == [] && s.cleanups == []
    ensures s.registered == s.ran + s.late
  {
    assert s.cleanups[At(s)..] == [];
    assert s.ran + multiset{} + s.late == s.ran + s.late;
  }

  lemma NothingAfterFree(s: State, m: Move, t: State)
    requires Inv(s) && s.frees == 1
    ensures !Step(s, m, t)
  {
    hide Fits, View, IncWord, DecWord;
  }

  /** At most one release ever runs the cleanups, and they run to the end exactly once: the cleanups of a
      freed object have all run once if and only if none was added during the cleaning. */
  lemma AllRanIffNoneLate(ss: seq<State>, ms: seq<Move>)
    requires IsRun(ss, ms) && ss[|ms|].frees == 1
    ensures ss[|ms|].registered == ss[|ms|].ran <==> ss[|ms|].late == multiset{}
  {
    FreedOnceAfterCleanups(ss, ms);
    var s := ss[|ms|];
    assert |s.registered| == |s.ran| + |s.late|;
  }

  /** On every machine there is a run that ends with the object freed and a cleanup never run: the last
      strong handle goes while a node handle is left, whose holder adds a cleanup once the list is walked. */
  lemma CleanupCanBeLost(l: Layout) returns (ss: seq<State>, ms: seq<Move>)
    requires l.Ok()
    ensures IsRun(ss, ms) && ss[0] == Start(l) && ss[|ms|].frees == 1 && ss[|ms|].late == multiset{7}
    ensures ss[|ms|].registered != ss[|ms|].ran
  {
    var s1 := Start(l).(counts := Small(Counts(1, 0, 1), l), handles := Counts(1, 0, 1));
    var s2 := s1.(frames := [Entering], handles := Counts(0, 0, 1));
    var s3 := s2.(frames := [Cleaning(0)]);
    var s4 := s3.(registered := multiset{7}, late := multiset{7}, cleanups := [7], frames := [Cleaning(1)]);
    var s5 := s4.(frames := [Leaving], cleanups := [], func := false);
    var s6 := s5.(counts := Small(Counts(0, 0, 1), l), frames := []);
    var s7 := s6.(counts := Small(Counts(0, 0, 0), l), handles := Counts(0, 0, 0), frees := 1);
    ss := [Start(l), s1, s2, s3, s4, s5, s6, s7];
    ms := [DoAddRef(Node), DoRelease(Strong), DoBegin(0), DoAdd(7), DoEnd(0), DoLeave(0), DoRelease(Node)];
    HandlesMoved(l, ss, ms);
    ListWalked(ss, ms);
    hide Step;
  }

  lemma HandlesMoved(l: Layout, ss: seq<State>, ms: seq<Move>)
    requires l.Ok() && |ss| == 8 && |ms| == 7 && ss[0] == Start(l)
    requires ms[0] == DoAddRef(Node) && ms[1] == DoRelease(Strong) && ms[5] == DoLeave(0) && ms[6] == DoRelease(Node)
    requires ss[1] == ss[0].(counts := Small(Counts(1, 0, 1), l), handles := Counts(1, 0, 1))
    requires ss[2] == ss[1].(frames := [Entering], handles := Counts(0, 0, 1))
    requires ss[5] == ss[2].(registered := ss[5].registered, late := ss[5].late, frames := [Leaving], func := false)
    requires ss[6] == ss[5].(counts := Small(Counts(0, 0, 1), l), frames := [])
    requires ss[7] == ss[6].(counts := Small(Counts(0, 0, 0), l), handles := Counts(0, 0, 0), frees := 1)
    ensures Step(ss[0], ms[0], ss[1]) && Step(ss[1], ms[1], ss[2]) && Step(ss[5], ms[5], ss[6]) && Step(ss[6], ms[6], ss[7])
  {}

  lemma ListWalked(ss: seq<State>, ms: seq<Move>)
    requires |ss| == 8 && |ms| == 7 && ms[2] == DoBegin(0) && ms[3] == DoAdd(7) && ms[4] == DoEnd(0)
    requires ss[2].frames == [Entering] && ss[2].cleanups == [] && ss[2].func && ss[2].handles.Total() > 0
    requires ss[3] == ss[2].(frames := [Cleaning(0)])
    requires ss[4] == ss[3].(registered := ss[3].registered + multiset{7}, late := ss[3].late + multiset{7}, cleanups := [7],
                             frames := [Cleaning(1)])
    requires ss[5] == ss[4].(frames := [Leaving], cleanups := [], func := false)
    ensures Step(ss[2], ms[2], ss[3]) && Step(ss[3], ms[3], ss[4]) && Step(ss[4], ms[4], ss[5])
  {}

  /** As long as the object is not freed, someone can still act on it. */
  lemma NotStuckBeforeFree(ss: seq<State>, ms: seq<Move>)
    requires IsRun(ss, ms) && ss[|ms|].frees == 0
    ensures exists m, t :: Step(ss[|ms|], m, t)
  {
    RunKeeps(ss, ms);
    var s := ss[|ms|];
    if s.frames != [] {
      if s.frames[0].Leaving? {
        var t := FreeIfDead(s.(counts := DecWord(s.counts, Strong), frames := s.frames[..0] + s.frames[1..]));
        assert Step(s, DoLeave(0), t);
      } else if s.frames[0].Entering? {
        assert Step(s, DoBegin(0), s.(frames := s.frames[0 := Cleaning(0)]));
      } else if s.frames[0].at < |s.cleanups| {
        var t := s.(frames := s.frames[0 := Cleaning(s.frames[0].at + 1)], ran := s.ran + multiset{s.cleanups[s.frames[0].at]});
        assert Step(s, DoRun(0), t);
      } else {
        assert Step(s, DoEnd(0), s.(frames := s.frames[0 := Leaving], cleanups := [], func := false));
      }
    } else {
      var k := if s.handles.strong > 0 then Strong else if s.handles.stream > 0 then Stream else Node;
      var d := s.(counts := DecWord(s.counts, k), handles := s.handles.Dec(k));
      var t := if d.func && !View(d.counts).Active()
               then d.(counts := IncWord(d.counts, Strong), frames := d.frames + [Entering])
               else FreeIfDead(d);
      assert Step(s, DoRelease(k), t);
    }
  }
}
