/** The synchronous cycle collector behind `magic_ref`: reference-counted links, trial deletion over a
    possibly cyclic multigraph, and the handle operations that feed it. */
module MagicRef {
  import opened Graphs
  import opened TrialDeletion
  import opened CycleCollection
  import opened Handles
  import opened Wrappers

  /** The address of a link. */
  type Ptr = nat

  /** The heap of links: one field per member of `struct link`, indexed by address (an address outside
      the domain is freed memory, and no operation below touches one), and the static sets. */
  class Heap {
    var refCount: Counts<Ptr>
    var colour: Colours<Ptr>
    var buffered: map<Ptr, bool>
    var children: Graph<Ptr>
    var roots: set<Ptr>
    var toDelete: set<Ptr>

    /** The handles to each link that are held outside every link's contents. */
    ghost var handles: multiset<Ptr>

    /** Subtract every edge that leaves a node newly turned grey. */
    method MarkGrey(n: Ptr, ghost C: set<Ptr>, ghost ext: multiset<Ptr>, ghost pending: multiset<Ptr>)
      requires n in children && n in colour && MarkReady(children, C, n, colour, refCount, ext, pending)
      modifies this`colour, this`refCount
      ensures MarkDone(children, C, n, old(colour), colour, refCount, ext, pending)
      decreases NotHaving(colour, Grey)
    {
      hide *;
      if colour[n] != Grey {
        ghost var a := colour;
        MarkEnter(children, C, n, a, refCount, ext, pending);
        colour := colour[n := Grey];
        for i := 0 to |children[n]|
          invariant n in children && Marking(children, C, n, i, a, colour, refCount, ext, pending)
        {
          ghost var b, cntB := colour, refCount;
          MarkDescend(children, C, n, i, a, b, cntB, ext, pending);
          var l := children[n][i];
          refCount := refCount[l := refCount[l] - 1];
          MarkGrey(l, C, ext, Rest(pending, children[n], i + 1));
          MarkReturn(children, C, n, i, a, b, cntB, colour, refCount, ext, pending);
        }
        MarkExit(children, C, n, a, colour, refCount, ext, pending);
      } else {
        MarkAlready(children, C, n, colour, refCount, ext, pending);
      }
    }

    /** Re-add every edge that leaves a node newly turned black. */
    method ScanBlack(n: Ptr, ghost L: set<Ptr>, ghost ext: multiset<Ptr>, ghost pending: multiset<Ptr>)
      requires n in children && n in colour && BlackReady(children, L, n, colour, refCount, ext, pending)
      modifies this`colour, this`refCount
      ensures BlackDone(children, L, n, old(colour), colour, refCount, ext, pending)
      decreases NotHaving(colour, Black)
    {
      hide *;
      ghost var a := colour;
      BlackEnter(children, L, n, a, refCount, ext, pending);
      colour := colour[n := Black];
      for i := 0 to |children[n]|
        invariant n in children && Blackening(children, L, n, i, a, colour, refCount, ext, pending)
      {
        ghost var b, cntB := colour, refCount;
        BlackDescend(children, L, n, i, a, b, cntB, ext, pending);
        var l := children[n][i];
        refCount := refCount[l := refCount[l] + 1];
        if colour[l] != Black {
          ScanBlack(l, L, ext, Rest(pending, children[n], i + 1));
          BlackReturn(children, L, n, i, a, b, cntB, colour, refCount, ext, pending);
        }
      }
      BlackExit(children, L, n, a, colour, refCount, ext, pending);
    }

    /** Sort what hangs below a grey node into live (black, counts restored) and provisionally dead (white). */
    method Scan(n: Ptr, ghost L: set<Ptr>, ghost ext: multiset<Ptr>)
      requires n in children && n in colour && n in refCount && ScanReady(children, L, n, colour, refCount, ext)
      modifies this`colour, this`refCount
      ensures ScanDone(children, L, n, old(colour), colour, refCount, ext)
      decreases Having(colour, Grey)
    {
      hide *;
      ghost var a, cnt := colour, refCount;
      if colour[n] == Grey {
        if refCount[n] > 0 {
          ScanLive(children, L, n, a, cnt, ext);
          ScanBlack(n, L, ext, multiset{});
          ScanBlackened(children, L, n, a, cnt, colour, refCount, ext);
        } else {
          ScanEnter(children, L, n, a, cnt, ext);
          colour := colour[n := White];
          for i := 0 to |children[n]|
            invariant n in children && Scanning(children, L, n, i, a, colour, refCount, ext)
          {
            ghost var b, cntB := colour, refCount;
            ScanDescend(children, L, n, i, a, b, cntB, ext);
            Scan(children[n][i], L, ext);
            ScanReturn(children, L, n, i, a, b, cntB, colour, refCount, ext);
          }
          ScanExit(children, L, n, a, colour, refCount, ext);
        }
      } else {
        ScanAlready(children, L, n, a, cnt, ext);
      }
    }

    /** Move the unbuffered white nodes below `n` into `toDelete`. */
    method CollectWhite(n: Ptr)
      requires n in children && n in colour && n in buffered && CollectReady(children, buffered, colour)
      modifies this`colour, this`toDelete
      ensures CollectDone(children, buffered, n, old(colour), colour, old(toDelete), toDelete)
      decreases Having(colour, White)
    {
      hide *;
      ghost var a, t := colour, toDelete;
      if colour[n] == White && !buffered[n] {
        CollectEnter(children, buffered, n, a, t);
        colour := colour[n := Black];
        for i := 0 to |children[n]|
          invariant n in children && Collecting(children, buffered, n, i, a, colour, t, toDelete)
        {
          ghost var b, tB := colour, toDelete;
          CollectDescend(children, buffered, n, i, a, b, t, tB);
          CollectWhite(children[n][i]);
          CollectReturn(children, buffered, n, i, a, b, colour, t, tB, toDelete);
        }
        CollectExit(children, buffered, n, a, colour, t, toDelete);
        toDelete := toDelete + {n};
      } else {
        CollectAlready(children, buffered, n, a, t);
      }
    }

    /** Mark below every purple root; unbuffer and drop the other roots. The set is walked in address
        order, which is arbitrary here. */
    method MarkRoots()
      requires Consistent(children, colour, refCount, buffered, roots, handles)
      modifies this`colour, this`refCount, this`buffered, this`roots
      ensures RootsMarked(children, old(colour), handles, roots, {}, colour, refCount, buffered)
    {
      hide *;
      ghost var a, kept := colour, {};
      var todo := roots;
      RootsMarkedStart(children, a, refCount, buffered, roots, handles);
      while todo != {}
        invariant RootsMarked(children, a, handles, kept, todo, colour, refCount, buffered)
        invariant PositiveWhereExact(children, handles) && roots == kept + todo && kept !! todo
        decreases todo
      {
        var l :| l in todo;
        ghost var b, cnt := colour, refCount;
        RootVisited(children, a, handles, kept, todo, b, cnt, buffered, l);
        if colour[l] == Purple && refCount[l] > 0 {
          RootMark(children, a, handles, kept, todo, b, cnt, buffered, l);
          MarkGrey(l, Reach(children, kept + {l}), handles, multiset{});
          RootMarkedNext(children, a, handles, kept, todo, b, cnt, buffered, l, colour, refCount);
          kept := kept + {l};
        } else {
          RootDropped(children, a, handles, kept, todo, b, cnt, buffered, l);
          buffered := buffered[l := false];
          roots := roots - {l};
          if colour[l] == Black && refCount[l] == 0 {
            assert false;  // every live count is positive, so the original's `delete` is never reached
          }
        }
        todo := todo - {l};
      }
      assert roots == kept;
    }

    method ScanRoots(ghost L: set<Ptr>)
      requires RootsScanned(children, L, colour, handles, roots, roots, colour, refCount)
      modifies this`colour, this`refCount
      ensures RootsScanned(children, L, old(colour), handles, roots, {}, colour, refCount)
    {
      hide *;
      ghost var a := colour;
      var todo := roots;
      while todo != {}
        invariant RootsScanned(children, L, a, handles, roots, todo, colour, refCount)
        decreases todo
      {
        var l :| l in todo;
        ghost var b, cnt := colour, refCount;
        RootScan(children, L, a, handles, roots, todo, b, cnt, l);
        Scan(l, L, handles);
        RootsScannedNext(children, L, a, handles, roots, todo, b, cnt, l, colour, refCount);
        todo := todo - {l};
      }
    }

    method CollectRoots()
      requires RootsCollected(children, colour, roots, roots, colour, buffered, toDelete)
      modifies this`colour, this`buffered, this`roots, this`toDelete
      ensures RootsCollected(children, old(colour), old(roots), {}, colour, buffered, toDelete) && roots == {}
    {
      hide *;
      ghost var w := colour;
      var todo := roots;
      while todo != {}
        invariant RootsCollected(children, w, roots, todo, colour, buffered, toDelete) && roots == old(roots)
        decreases todo
      {
        var l :| l in todo;
        ghost var b, buf, t := colour, buffered, toDelete;
        RootCollect(children, w, roots, todo, b, buf, t, l);
        buffered := buffered[l := false];
        CollectWhite(l);
        RootsCollectedNext(children, w, roots, todo, b, buf, t, l, colour, toDelete);
        todo := todo - {l};
      }
      roots := {};
    }

    /** The three phases of a collection, up to the deletions: `toDelete` is exactly the candidates that
        are not live, trial deletion has been undone exactly for the survivors, and no colour, buffer
        flag or root is left over. */
    method FindGarbage()
      requires Consistent(children, colour, refCount, buffered, roots, handles) && toDelete == {}
      modifies this`colour, this`refCount, this`buffered, this`roots, this`toDelete
      ensures toDelete == Candidates(children, old(colour)) - Live(children, old(colour), handles)
      ensures Survived(children, colour, refCount, buffered, handles, children.Keys - toDelete)
      ensures roots == {}
    {
      hide *;
      RootsMarkedStart(children, colour, refCount, buffered, roots, handles);
      ghost var a, L := colour, Live(children, colour, handles);
      MarkRoots();
      ghost var m, kept := colour, roots;
      RootsScannedStart(children, a, handles, roots, m, refCount, buffered);
      ghost var cntM := refCount;
      ScanRoots(L);
      Separated(children, a, handles, kept, m, cntM, buffered, L, colour, refCount);
      ghost var w := colour;
      CollectRoots();
      Collected(children, a, handles, kept, w, refCount, colour, buffered, toDelete, L);
    }

    // ---- handles ----

    /** What holds between any two operations on handles. */
    ghost predicate Valid()
      reads this
    {
      Sound(children, colour, refCount, buffered, roots, handles) && toDelete == {}
    }

    constructor ()
      ensures Valid() && children == map[] && handles == multiset{}
    {
      refCount, colour, buffered, children := map[], map[], map[], map[];
      roots, toDelete, handles := {}, {}, multiset{};
    }

    /** `magic_ref()`: the allocator supplies a fresh address. */
    method Create(n: Ptr)
      requires Valid() && n !in children
      modifies this
      ensures Valid() && handles == old(handles) + multiset{n}
      ensures children == old(children)[n := []] && refCount == old(refCount)[n := 1]
      ensures colour == old(colour)[n := Black] && buffered == old(buffered)[n := false] && roots == old(roots)
    {
      hide Sound;
      CreateSound(children, colour, refCount, buffered, roots, handles, n);
      children, colour, refCount := children[n := []], colour[n := Black], refCount[n := 1];
      buffered, handles := buffered[n := false], handles + multiset{n};
    }

    /** The copy constructor. */
    method Copy(n: Ptr)
      requires Valid() && n in children
      modifies this
      ensures Valid() && handles == old(handles) + multiset{n}
      ensures children == old(children) && buffered == old(buffered) && roots == old(roots)
      ensures n in old(refCount) && refCount == old(refCount)[n := old(refCount)[n] + 1]
      ensures colour == old(colour)[n := Black]
    {
      hide Sound;
      SoundDomain(children, colour, refCount, buffered, roots, handles, n);
      CopySound(children, colour, refCount, buffered, roots, handles, n);
      refCount, colour := refCount[n := refCount[n] + 1], colour[n := Black];
      handles := handles + multiset{n};
    }

    /** The destructor: drop one handle. What that frees is exactly what no remaining handle and no link
        that stays holds; nothing when the link had another reference. */
    method Decrement(n: Ptr)
      requires Valid() && handles[n] > 0
      modifies this
      ensures Valid() && handles == old(handles) - multiset{n}
      ensures children == old(children) - Orphans(old(children), handles)
      ensures old(n in refCount && refCount[n] > 1) ==>
                && children == old(children) && refCount == old(refCount)[n := old(refCount)[n] - 1]
                && colour == old(colour)[n := Purple] && buffered == old(buffered)[n := true] && roots == old(roots) + {n}
      ensures old(n in refCount && refCount[n] == 1) ==> n !in children
      decreases children.Keys, 1
    {
      hide Sound, Orphans;
      DropFacts(children, colour, refCount, buffered, roots, handles, n);
      DropOrphans(children, colour, refCount, buffered, roots, handles, n);
      if n !in toDelete {
        if refCount[n] == 1 {
          Release(n);
        } else {
          DropSound(children, colour, refCount, buffered, roots, handles, n);
          refCount, handles := refCount[n := refCount[n] - 1], handles - multiset{n};
          PossibleRoot(n);
        }
      }
    }

    /** `possible_root`. */
    method PossibleRoot(n: Ptr)
      requires n in colour && n in buffered && (colour[n] == Purple ==> buffered[n]) && (buffered[n] ==> n in roots)
      modifies this`colour, this`buffered, this`roots
      ensures colour == old(colour)[n := Purple] && buffered == old(buffered)[n := true] && roots == old(roots) + {n}
    {
      if colour[n] != Purple {
        colour := colour[n := Purple];
        if !buffered[n] {
          buffered := buffered[n := true];
          roots := roots + {n};
        }
      }
    }

    /** The last handle to `n` goes: free the link, and with its contents the handles in it. */
    method Release(n: Ptr)
      requires Valid() && handles[n] > 0 && n in children && n in refCount && n in buffered && refCount[n] == 1
      modifies this
      ensures Valid() && handles == old(handles) - multiset{n}
      ensures children == old(children) - Orphans(old(children), handles)
      decreases children.Keys, 0
    {
      hide Sound, Orphans;
      ReleaseSound(children, colour, refCount, buffered, roots, handles, n);
      DropFacts(children, colour, refCount, buffered, roots, handles, n);
      ReleaseOrphans(children, colour, refCount, buffered, roots, handles, n);
      var cs := children[n];
      ghost var others := handles - multiset{n};
      if buffered[n] {
        roots := roots - {n};
      }
      children, colour, refCount, buffered := children - {n}, colour - {n}, refCount - {n}, buffered - {n};
      handles := others + multiset(cs);
      DropAll(cs, others);
    }

    /** Destroy the handles `cs` of a contents, one after the other. */
    method DropAll(cs: seq<Ptr>, ghost others: multiset<Ptr>)
      requires Valid() && handles == others + multiset(cs)
      modifies this
      ensures Valid() && handles == others
      ensures children == old(children) - Orphans(old(children), others)
      decreases children.Keys, 2
    {
      hide Sound, Orphans;
      RestEnds(others, cs);
      SoundOrphans(children, colour, refCount, buffered, roots, handles);
      for i := 0 to |cs|
        invariant Valid() && handles == Rest(others, cs, i)
        invariant children == old(children) - Orphans(old(children), handles)
      {
        RestNext(others, cs, i);
        ghost var more := handles;
        Decrement(cs[i]);
        OrphansCompose(old(children), more, handles);
      }
    }

    /** Destroy the contents of a link in use. Nothing that stays reachable without them is freed. */
    method Empty(n: Ptr)
      requires Valid() && WellFormed(children) && n in children && n in Reachable(children, handles)
      modifies this
      ensures Valid() && handles == old(handles)
      ensures n in children && children[n] == []
      ensures children == old(children)[n := []] - Orphans<Ptr>(old(children)[n := []], handles) && WellFormed(old(children)[n := []])
      ensures n in Reachable(old(children)[n := []], handles) && forall c :: handles[c] > 0 ==> c in children
      ensures WellFormed(children) && Reachable(old(children)[n := []], handles) <= Reachable(children, handles)
    {
      hide Sound, Orphans;
      ClearSound(children, colour, refCount, buffered, roots, handles, n);
      ClearedStaysReachable(children, handles, n);
      ghost var H, g0 := handles, children[n := []];
      var contents := children[n];
      children := children[n := []];
      handles := H + multiset(contents);
      DropAll(contents, H);
      SoundLinks(children, colour, refCount, buffered, roots, H);
      StillReachable(g0, children, colour, refCount, buffered, roots, H);
    }

    /** `assign`: replace the contents of a link in use by a value that holds the handles `cs`. It is called
        through a handle outside every contents or in those of `through`, and the value stands outside or in
        the contents of `source`. The old contents are destroyed before either is used again: the
        assignment goes through exactly when both survive that. The value goes through a temporary: for
        each handle, `copied` says whether it is copied out of that and the temporary's own handle
        destroyed, or moved. */
    method Assign(n: Ptr, cs: seq<Ptr>, copied: seq<bool>, through: Option<Ptr>, source: Option<Ptr>) returns (safe: bool)
      requires Valid() && WellFormed(children) && n in children && n in Reachable(children, handles) && |copied| == |cs|
      requires through.Some? ==> through.value in children && n in children[through.value]
      requires if source.None? then forall c :: c in cs ==> handles[c] > 0
               else source.value in children && forall c :: c in cs ==> c in children[source.value]
      modifies this
      ensures Valid() && handles == old(handles)
      ensures safe <==>
                && (through.Some? ==> through.value != n && through.value !in Orphans<Ptr>(old(children)[n := []], handles))
                && (source.Some? ==> source.value != n && source.value !in Orphans<Ptr>(old(children)[n := []], handles))
      ensures safe ==> children == old(children)[n := []] - Orphans<Ptr>(old(children)[n := []], handles) + map[n := cs]
      ensures !safe ==> children == old(children)[n := []] - Orphans<Ptr>(old(children)[n := []], handles)
      ensures WellFormed(children) && Reachable(old(children)[n := []], handles) <= Reachable(children, handles)
    {
      hide Sound, Orphans, Reachable;
      ghost var emptied: Graph<Ptr> := children[n := []];
      ghost var freed := Orphans<Ptr>(emptied, handles);
      Empty(n);
      assert children == emptied - freed;
      if through.Some? && (through.value == n || through.value !in children) {
        return false;
      }
      if source.Some? && (source.value == n || source.value !in children) {
        return false;
      }
      Capture(n, cs, copied);
      assert children == emptied - freed + map[n := cs];
      safe := true;
    }

    /** The handles that are copied while `n` is the capturer. */
    method Capture(n: Ptr, cs: seq<Ptr>, copied: seq<bool>)
      requires Valid() && WellFormed(children) && n in children && children[n] == [] && |copied| == |cs|
      requires n in Reachable(children, handles) && forall c :: c in cs ==> c in children
      modifies this
      ensures Valid() && handles == old(handles) && children == old(children)[n := cs]
      ensures WellFormed(children) && Reachable(old(children), handles) <= Reachable(children, handles)
    {
      hide Sound, Reachable, WellFormed;
      ghost var g := children;
      for i := 0 to |cs|
        invariant Valid() && handles == old(handles) && n in children && children == g[n := cs[..i]]
        invariant WellFormed(children) && Reachable(g, handles) <= Reachable(children, handles)
      {
        assert cs[i] in cs;
        Attach(n, cs[i], copied[i]);
        assert cs[..i + 1] == cs[..i] + [cs[i]];
      }
      assert cs[..|cs|] == cs;
    }

    /** Capture one handle into `n`'s contents; a temporary's copy that is destroyed afterwards leaves a
        possible root. */
    method Attach(n: Ptr, c: Ptr, copied: bool)
      requires Valid() && n in children && WellFormed(children) && n in Reachable(children, handles) && c in children
      modifies this
      ensures Valid() && handles == old(handles)
      ensures children == old(children)[n := old(children)[n] + [c]]
      ensures c in old(refCount) && refCount == old(refCount)[c := old(refCount)[c] + 1]
      ensures colour == old(colour)[c := if copied then Purple else Black]
      ensures buffered == if copied then old(buffered)[c := true] else old(buffered)
      ensures roots == if copied then old(roots) + {c} else old(roots)
      ensures WellFormed(children) && Reachable(old(children), handles) <= Reachable(children, handles)
    {
      hide Sound;
      AttachFacts(children, colour, refCount, buffered, roots, handles, n, c);
      AttachSound(children, colour, refCount, buffered, roots, handles, n, c);
      children := children[n := children[n] + [c]];
      refCount, colour := refCount[c := refCount[c] + 1], colour[c := Black];
      if copied {
        SoundFlags(children, colour, refCount, buffered, roots, handles, c);
        PossibleRootSound(children, colour, refCount, buffered, roots, handles, c);
        PossibleRoot(c);
      }
    }

    /** `reset`. */
    method Reset(n: Ptr)
      requires Valid() && WellFormed(children) && n in children && n in Reachable(children, handles)
      modifies this
      ensures Valid() && handles == old(handles)
      ensures n in children && children[n] == []
      ensures children == old(children)[n := []] - Orphans<Ptr>(old(children)[n := []], handles)
    {
      Empty(n);
    }

    /** `operator =` on a handle to `n` held outside every contents. The handle assigned is held outside
        too, or in the contents of `holder`. The old link is let go before that handle is read: the
        assignment goes through exactly when this does not free the holder. */
    method Reassign(n: Ptr, other: Ptr, holder: Option<Ptr>) returns (safe: bool)
      requires Valid() && handles[n] > 0 && WellFormed(children)
      requires if holder.None? then handles[other] > 0
               else holder.value in children && holder.value in Reachable(children, handles) && other in children[holder.value]
      modifies this
      ensures Valid()
      ensures safe <==> n == other || holder.None?
                        || holder.value !in Orphans(old(children), old(handles) - multiset{n})
      ensures n == other ==> children == old(children) && handles == old(handles)
      ensures n != other ==> children == old(children) - Orphans(old(children), old(handles) - multiset{n})
      ensures n != other ==> handles == old(handles) - multiset{n} + if safe then multiset{other} else multiset{}
    {
      hide Sound, Orphans, Reachable;
      safe := true;
      if n != other {
        Decrement(n);
        if holder.Some? && holder.value !in children {
          return false;
        }
        SoundLinks(children, colour, refCount, buffered, roots, handles);
        Copy(other);
      }
    }

    // ---- collection ----

    /** `collect_cycles`. When no garbage refers to a link in use, what is deleted is exactly what no
        handle outside can reach, and everything is exact again; otherwise, and only then, the deletions
        reach a link in use, whose count is exact before that decrement. */
    method CollectCycles() returns (escape: Option<Ptr>)
      requires Valid() && WellFormed(children)
      modifies this
      ensures handles == old(handles)
      ensures escape.None? <==> GarbageClosed(old(children), handles)
      ensures escape.None? ==> Valid() && roots == {} && children == Swept(old(children), handles)
      ensures escape.None? ==> children.Keys == Reachable(old(children), handles)
      ensures escape.None? ==> forall x :: x in children && x in old(children) ==> children[x] == old(children)[x]
      ensures escape.Some? ==> var x, L := escape.value, Reachable(old(children), handles);
                               x in L && L <= old(children).Keys && x in refCount
                               && refCount[x] == handles[x] + InEdges(old(children), L, x)
    {
      hide Sound, Survived, Consistent;
      CollectedIsGarbage(children, colour, refCount, buffered, roots, handles);
      ghost var g, L := children, Reachable(children, handles);
      SoundConsistent(children, colour, refCount, buffered, roots, handles);
      ghost var col, cnt, buf, rs := colour, refCount, buffered, roots;
      FindGarbage();
      SurvivedFacts(g, col, cnt, buf, rs, handles, colour, refCount, buffered, toDelete);
      ghost var t := toDelete;
      ghost var colS, cntS, bufS := colour, refCount, buffered;
      escape := DeleteCollected();
      if escape.None? {
        SweptSound(g, col, cnt, buf, rs, handles, colS, cntS, bufS, t);
        SweptKeeps(g, handles);
        toDelete := {};
      }
    }

    /** Delete the collected links. Destroying a contents decrements every handle in it; a collected
        target ignores that. A target outside the collected set is returned at the first such decrement,
        with the counts still exact: that decrement would be one too many. */
    method DeleteCollected() returns (escape: Option<Ptr>)
      requires toDelete <= children.Keys && children.Keys == colour.Keys == refCount.Keys == buffered.Keys
      modifies this`children, this`colour, this`refCount, this`buffered
      ensures escape.None? <==> forall p, c :: p in toDelete && c in old(children)[p] ==> c in toDelete
      ensures escape.None? ==> children == old(children) - toDelete && colour == old(colour) - toDelete
      ensures escape.None? ==> refCount == old(refCount) - toDelete && buffered == old(buffered) - toDelete
      ensures escape.Some? ==> escape.value !in toDelete
                               && exists p :: p in toDelete && escape.value in old(children)[p]
      ensures forall x :: x in old(refCount) && x !in toDelete ==> x in refCount && refCount[x] == old(refCount)[x]
    {
      var todo := toDelete;
      ghost var freed: set<Ptr> := {};
      while todo != {}
        invariant freed !! todo && freed + todo == toDelete
        invariant Without(old(children), old(colour), old(refCount), old(buffered), freed)
        invariant forall p, c :: p in freed && c in old(children)[p] ==> c in toDelete
        decreases todo
      {
        var l :| l in todo;
        var e := FindEscape(children[l]);
        if e.Some? {
          assert l in toDelete && e.value in old(children)[l];
          return e;
        }
        Free(l, old(children), old(colour), old(refCount), old(buffered), freed);
        todo, freed := todo - {l}, freed + {l};
      }
      assert freed == toDelete;
      return None;
    }

    ghost predicate Without(g: Graph<Ptr>, col: Colours<Ptr>, cnt: Counts<Ptr>, buf: map<Ptr, bool>, freed: set<Ptr>)
      reads this
    {
      children == g - freed && colour == col - freed && refCount == cnt - freed && buffered == buf - freed
    }

    /** The decrements that destroying the contents `cs` makes, up to the first on a survivor. */
    method FindEscape(cs: seq<Ptr>) returns (escape: Option<Ptr>)
      ensures escape.None? <==> forall c :: c in cs ==> c in toDelete
      ensures escape.Some? ==> escape.value in cs && escape.value !in toDelete
    {
      for i := 0 to |cs|
        invariant forall k :: 0 <= k < i ==> cs[k] in toDelete
      {
        if cs[i] !in toDelete {
          return Some(cs[i]);
        }
      }
      return None;
    }

    method Free(l: Ptr, ghost g: Graph<Ptr>, ghost col: Colours<Ptr>, ghost cnt: Counts<Ptr>, ghost buf: map<Ptr, bool>,
                ghost freed: set<Ptr>)
      requires Without(g, col, cnt, buf, freed)
      modifies this`children, this`colour, this`refCount, this`buffered
      ensures Without(g, col, cnt, buf, freed + {l})
    {
      MinusMinus(g, freed, l);
      MinusMinus(col, freed, l);
      MinusMinus(cnt, freed, l);
      MinusMinus(buf, freed, l);
      children, colour, refCount, buffered := children - {l}, colour - {l}, refCount - {l}, buffered - {l};
    }
  }

  lemma MinusMinus<K, V>(m: map<K, V>, s: set<K>, k: K)
    ensures m - s - {k} == m - (s + {k})
  {}
}
