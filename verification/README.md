# Sodium: a verified model of the FRP engine

Sodium is a push-based functional reactive programming library in C++. The repository holds two
generations of its engine. `experimental/` orders propagation by node rank and collects cyclic garbage
behind reference-counted handles. `sodium/` pushes entries onto a FIFO queue served by worker threads and
keeps listeners alive with three kinds of handle. This project models the state-changing cores of both in
Dafny and proves what they promise.

Run `dafny verify dfyconfig.toml` to check everything.

## The pieces

* `Graphs` - finite multigraphs; what a set of nodes reaches is its least closed superset, which is what paths
  lead to. `Sequences` - picking elements out of a sequence.
* `TrialDeletion`, `CycleCollection`, `Handles`, `MagicRef` - the synchronous cycle collector. `MagicRef.Heap`
  is the imperative heap of links: one field per member of `struct link`, indexed by address, so that an
  access to a freed link would be an access outside a map's domain. The other three modules hold the
  reasoning on snapshots of that heap: the recursive passes, the loops over the roots, and the operations on
  handles. Handles on the stack, and handles in a contents being destroyed, are counted as external.
* `Ranks`, `ListenerOrder`, `RankOrder` - rank raising on arbitrary listener graphs, linking and unlinking;
  exactly when a link keeps every edge in order.
* `Scheduler`, `CloseRuns` - the prioritized queue, re-keying, and every run of `close` over arbitrary handlers.
* `Network`, `NetworkMeaning`, `NetworkProof`, `NetworkTheorem`, `StreamEngine` - static networks of sinks, map, filter, merge,
  coalesce, accumulators and listeners: what they mean, and that the transaction computes exactly that.
  `accum_e` is the collecting node whose step returns its result twice; `snapshot` and `gate` with a cell that
  does not change during the transaction are maps and filters.
* `WorkerPool`, `Confluence` - the worker threads as a step relation over all interleavings.
* `PostQueue` - the partition's post queue with nested transactions, cells and firings.
* `CountSet`, `Lifetime` - the packed handle counters, and the lifetime of a listener's implementation.
* `Timers` - event queue, alarms, periodic timers and the loop that runs before each transaction.
* `Router` - the routing multimap against a linear filter.

## Where the code differs from what it promises

* `collect_cycles` deletes garbage by destroying contents, and each handle in a contents decrements its
  target once more. Marking has already subtracted the edges that leave garbage, so the deletions are right
  exactly when no garbage link refers to a link in use (`CollectCycles` proves both directions,
  `GarbageNotAlwaysClosed` gives a sound heap where they are not). The comment in the source states the
  condition as an assumption.
* Assigning to a handle lets its old link go before the handle assigned is read. When that handle lives in the
  contents of a link which this frees, freed memory is read. `Reassign` proves the assignment safe if and only
  if the holder is not among the links freed, and `AssignmentFreesHolder` gives a sound heap where it is.
  `Assign` has the same condition on the place of the value and of the handle it is called through.
* Rank raising visits a node once, so on a reconverging graph it can leave an edge out of order
  (`ReconvergingLosesOrder`). `OutOfOrderIsLate` says what every such edge looks like: its target had already
  been raised through another edge, or is the target of the link itself, when the edge was examined.
  `LinkKeepsOrder` gives the exact condition on the graph and its ranks before the link: the order is kept if
  and only if the source is not below the target and, for each node, the first raising path to it in the order
  of the listeners is as long as any other. `LinkKeepsOrderIff` does the same over all orders of the listeners:
  no node may be reached by raising paths of different lengths. A graph without reconverging paths always
  meets both.
* The number of worker threads is `hardware_concurrency()` when the environment variable is not set, and that
  may be zero. A pool without workers joins at once and leaves its queue unprocessed (`DrainsIffWorkers`).
* A cleanup added to a listener while its cleanups are being run is dropped without being run
  (`AllRanIffNoneLate`; `CleanupCanBeLost` is such a run).
* Changing the period of a running timer can set a deadline before alarms that already fired; firing order
  survives the change exactly when it does not (`SetPeriod`; in `OrderCanBeLost` it does).
* The loop of the timer system ends exactly when no running timer that is due has a period of zero or less
  (`Tick`, `TickOne`).

## Model

| member | source | states |
|---|---|---|
| MagicRef.Heap.MarkGrey | experimental/sodium/impl/magic_ref.cpp:110-121 | terminates on any cyclic graph; turns grey only nodes below the argument, each with all its children, and leaves every count short by exactly the edges that leave grey nodes |
| MagicRef.Heap.ScanBlack | experimental/sodium/impl/magic_ref.cpp:137-145 | terminates; turns black only nodes of any closed set that holds the argument, each with all its children, and restores every count to handles plus edges that leave black nodes |
| MagicRef.Heap.Scan | experimental/sodium/impl/magic_ref.cpp:123-135 | terminates; no node stops being grey and leaves a grey child behind, white nodes count nothing, and only live nodes turn black |
| MagicRef.Heap.CollectWhite | experimental/sodium/impl/magic_ref.cpp:147-156 | moves exactly the unbuffered white nodes it meets to the delete set and leaves none below a collected node |
| MagicRef.Heap.MarkRoots | experimental/sodium/impl/magic_ref.cpp:74-89 | from any consistent heap: afterwards the kept roots are grey, every other root is unbuffered, no node is purple and unmarked, and the counts are those of trial deletion |
| MagicRef.Heap.ScanRoots | experimental/sodium/impl/magic_ref.cpp:91-99 | every kept root, and with it every candidate, has been decided |
| MagicRef.Heap.CollectRoots | experimental/sodium/impl/magic_ref.cpp:101-108 | every root is unbuffered and no longer white, the root set is empty, and the delete set is what changed |
| MagicRef.Heap.FindGarbage | experimental/sodium/impl/magic_ref.cpp:59-62 | from any consistent heap the three phases put into the delete set exactly the nodes below a purple root that are not reachable from an external handle or a node left unmarked; every count is exact over the survivors' edges; no colour, buffer flag or root is left |
| MagicRef.Heap.CollectCycles | experimental/sodium/impl/magic_ref.cpp:59-72 | deletes exactly what no external handle reaches and leaves an exact heap without roots, if and only if no garbage refers to a link in use; otherwise a link in use whose count was exact is decremented once more |
| MagicRef.Heap.DeleteCollected | experimental/sodium/impl/magic_ref.cpp:63-67 | the deletions touch nothing outside the delete set if and only if no edge leaves it |
| MagicRef.Heap.Create | experimental/sodium/impl/magic_ref.h:65 | a new link with one handle; counts stay exact and no node is lost to the collector |
| MagicRef.Heap.Copy | experimental/sodium/impl/magic_ref.h:69-74 | one more handle; counts stay exact and no node is lost, although the node turns black |
| MagicRef.Heap.Decrement | experimental/sodium/impl/magic_ref.cpp:22-32 | one handle less; what is freed is exactly the least set of links that no remaining handle and no link outside the set holds: nothing if the count was above one, and never a garbage cycle; every garbage node stays below a purple root |
| MagicRef.Heap.Release | experimental/sodium/impl/magic_ref.cpp:34-47 | the same for the last handle: the link is freed and, through its contents, exactly what nothing else holds |
| MagicRef.Heap.Assign | experimental/sodium/impl/magic_ref.h:94-103 | goes through if and only if the value and the handle it is called through outlive the old contents; the contents become the given handles, the external handles are unchanged, exactly the orphans of the old contents are freed, and nothing still reachable without them is |
| MagicRef.Heap.Reset | experimental/sodium/impl/magic_ref.h:105-110 | the contents become empty, exactly what only they held is freed, and the link itself survives |
| MagicRef.Heap.Reassign | experimental/sodium/impl/magic_ref.h:83-92 | one handle moves from the old link to the new one, and exactly what that leaves unheld is freed; safe if and only if the link whose contents hold the assigned handle is not among the freed |
| TrialDeletion.MarkDescend | experimental/sodium/impl/magic_ref.cpp:113-119 | subtracting one edge keeps the count accounting, never below zero, and leaves fewer nodes to mark |
| TrialDeletion.ScanLive | experimental/sodium/impl/magic_ref.cpp:125-126 | a grey node with a positive count has a handle or a black parent, hence is live |
| CycleCollection.AllMarked | experimental/sodium/impl/magic_ref.cpp:74-89 | after marking, grey is exactly everything below a purple node, and all of it is below the kept roots |
| CycleCollection.BlackIsLive | experimental/sodium/impl/magic_ref.cpp:91-99 | after scanning, black is exactly the live set, white exactly the rest, and counts are exact over live sources |
| CycleCollection.AllCollected | experimental/sodium/impl/magic_ref.cpp:101-108 | the collecting loop misses no white node, although it skips white roots that are still buffered |
| CycleCollection.CandidatesByPath | experimental/sodium/impl/magic_ref.cpp:74-99 | in doubt is what a path leads to from a purple node; live is what one leads to from an external handle or a node not in doubt |
| Handles.CollectedIsGarbage | experimental/sodium/impl/magic_ref.cpp:59-62 | after any sequence of handle operations the collected set is exactly what no external handle reaches |
| Handles.ReachableByPath | experimental/sodium/impl/magic_ref.cpp:68-71 | in use is what a path leads to from a link with an external handle |
| Handles.CreateSound | experimental/sodium/impl/magic_ref.h:24-25 | creation keeps counts exact and every node below a handle or a purple root |
| Handles.CopySound | experimental/sodium/impl/magic_ref.cpp:16-20 | so does an increment, although it clears purple |
| Handles.DropSound | experimental/sodium/impl/magic_ref.cpp:49-57 | so does a decrement that makes a possible root |
| Handles.ReleaseSound | experimental/sodium/impl/magic_ref.cpp:34-47 | so does freeing a link, its contents' handles becoming pending drops |
| Handles.ClearSound | experimental/sodium/impl/magic_ref.h:96-97 | so does emptying a contents |
| Handles.AttachSound | experimental/sodium/impl/magic_ref.h:98-101 | so does capturing a handle to a reachable link into a contents |
| Handles.ReachableKept | experimental/sodium/impl/magic_ref.cpp:22-47 | freeing links with all external handles still valid never loses a reachable link |
| Handles.OrphansStepwise | experimental/sodium/impl/magic_ref.cpp:22-47 | the links freed do not depend on the order in which the cascade frees them |
| Handles.OrphansOfDrop | experimental/sodium/impl/magic_ref.cpp:22-32 | with exact counts, dropping one of several references frees nothing and dropping the last one frees the node |
| Handles.ReachableNotOrphaned | experimental/sodium/impl/magic_ref.cpp:22-47 | reference counting alone never frees a link in use |
| Handles.SweptSound | experimental/sodium/impl/magic_ref.cpp:63-71 | deleting closed garbage leaves counts exact and the roots empty |
| Handles.NothingLeaks | experimental/sodium/impl/magic_ref.cpp:59-72 | once no external handle is left, a collection removes every link |
| Handles.GarbageNotAlwaysClosed | experimental/sodium/impl/magic_ref.cpp:68-71 | a sound heap in which a garbage cycle refers to a link in use breaks the assumption of the delete loop |
| Handles.AssignmentFreesHolder | experimental/sodium/impl/magic_ref.h:83-92 | a sound heap in which letting the old link go frees the link whose contents hold the handle to be assigned |
| Handles.PossibleRootSound | experimental/sodium/impl/magic_ref.h:98-101 | a captured link left as a possible root by the temporary's destruction keeps the heap sound |
| Ranks.NodeTable.EnsureBiggerThan | experimental/sodium/transaction.cpp:15-29 | terminates on any graph, cyclic or not, and computes the recursion `Raise`; reports a change exactly when the node itself was raised |
| Ranks.NodeTable.LinkTo | experimental/sodium/transaction.cpp:34-44 | raises the target above the node, appends the listener under a fresh number, and returns false exactly when no rank changed |
| Ranks.NodeTable.UnlinkTo | experimental/sodium/transaction.cpp:46-62 | removes exactly the registrations with that number, keeping the order of the others; a deleted node is left alone |
| Ranks.RaiseMonotone | experimental/sodium/transaction.cpp:15-24 | no rank is lowered, a node changes exactly when visited, everything raised lies below the target, the target ends above the limit |
| Ranks.RaiseExactly | experimental/sodium/transaction.cpp:15-24 | the target gets the rank after the limit; a node is raised exactly if it listens to a raised node of no lower rank, to the rank after such a node's |
| Ranks.RaiseTraced | sodium/transaction.cpp:248-260 | every raise can be annotated with the one edge through which each node was entered; a node entered that way has the rank after its entering node |
| Ranks.OutOfOrderIsLate | experimental/sodium/transaction.cpp:15-24 | raising from an ordered graph, an out-of-order edge joins two raised nodes and its target is the link's target or was raised through a different edge |
| RankOrder.LinkKeepsOrderIff | experimental/sodium/transaction.cpp:15-44 | from an ordered graph, linking leaves every edge in order, the new one included, for every order of the listeners, if and only if the source is not below the target and no node is reached by raising paths of different lengths |
| RankOrder.LinkKeepsOrder | experimental/sodium/transaction.cpp:15-44 | linking leaves every edge in order, the new one included, if and only if the source is not below the target and, for each node, the first raising path in the order of the listeners is as long as any other |
| ListenerOrder.RaiseKeepsOrder | experimental/sodium/transaction.cpp:15-24 | raising alone keeps an ordered graph ordered exactly when every first raising path is a longest one |
| ListenerOrder.RaiseRouted | experimental/sodium/transaction.cpp:15-24 | every run of the recursion enters its nodes along paths in listener order, and each listener met was entered by a path not after the one examined |
| ListenerOrder.EnteredFirst | experimental/sodium/transaction.cpp:15-24 | when first raising paths are longest, every node on a raising path is entered along its first one |
| ListenerOrder.NotAfterSpelt | experimental/sodium/transaction.cpp:21-22 | the order of paths is that of the listener taken where they first part |
| RankOrder.RaiseAlong | experimental/sodium/transaction.cpp:21-22 | a raise that meets a raising path first gives the path's last node the limit plus the path's length, whatever comes later |
| Ranks.ReconvergingLosesOrder | experimental/sodium/transaction.cpp:15-24 | a reconverging graph on which linking loses the order |
| Ranks.UnlinkUndoesLink | experimental/sodium/transaction.cpp:46-62 | unlinking by the number that linking gave restores the listeners |
| Ranks.KeepPicks | experimental/sodium/transaction.cpp:46-62 | what unlinking keeps is exactly the registrations with other numbers, in order |
| Scheduler.TransactionImpl.Prioritized | experimental/sodium/transaction.cpp:173-180 | adds exactly one entry, freshly numbered, under its node's current rank; the queue stays strictly ordered |
| Scheduler.TransactionImpl.CheckRegen | experimental/sodium/transaction.cpp:116-124 | exactly as many entries, each old one there again with its number, node and action, every one under its node's current rank, in order |
| Scheduler.InsertContents | experimental/sodium/transaction.h:78-84 | inserting an entry with a fresh number adds it and nothing else |
| Scheduler.InsertSorted | experimental/sodium/transaction.h:78-84 | insertion keeps strictly increasing (rank, number) order |
| Scheduler.SortedByRank | experimental/sodium/transaction.h:78-84 | the order is by rank first, by sequence number among equal ranks |
| Scheduler.SortedUnique | experimental/sodium/transaction.h:78-84 | the order of a queue is determined by its entries |
| CloseRuns.RunKeeps | experimental/sodium/transaction.cpp:92-114 | over every run of `close` with arbitrary handlers that enqueue no lower than themselves: entries have run in strictly increasing (rank, number) order, each issued entry has run or is queued exactly once, and no later phase has begun early |
| CloseRuns.CloseRunsEverything | experimental/sodium/transaction.cpp:92-114 | a completed `close` has run the initial entries and all that handlers enqueued, once, by rank and then number, then all initial and added last actions in order of adding, then all post actions likewise |
| CloseRuns.RunActions | experimental/sodium/transaction.cpp:104-109 | last and post actions are the initial ones and those added on the way, in order |
| CloseRuns.RunIssues | experimental/sodium/transaction.cpp:173-180 | nothing is issued but what handlers enqueue, each under the next number and its node's rank |
| CloseRuns.CloseNotStuck | experimental/sodium/transaction.cpp:96-109 | until everything has run, something can run |
| NetworkProof.PostFacts | experimental/sodium/sodium.h:331-344 | a send queues the value exactly once behind everything queued for each of its listeners and for no one else |
| NetworkProof.CoalesceFirst | experimental/sodium/sodium.h:408-413 | the entry queued with a coalescing stream's first input stands behind everything queued for that stream |
| NetworkProof.CoalesceFlushed | experimental/sodium/sodium.h:409-412 | when that entry runs, no input is left and the stream fires the fold of all of them, once |
| NetworkProof.MergeSelf | experimental/sodium/sodium.h:378-396 | a merge fires all left values before any right value |
| NetworkTheorem.DeliverKeeps | experimental/sodium/transaction.cpp:96-103 | running a delivered entry keeps the invariant: no value is lost, repeated or reordered on any link, and each node's firings are those its kind makes of its inputs |
| NetworkTheorem.FlushKeeps | experimental/sodium/transaction.cpp:96-103 | so does running a coalescing stream's second entry |
| NetworkTheorem.DeliverProgress | experimental/sodium/transaction.cpp:96-103 | every delivered entry leaves strictly less work, so draining ends |
| NetworkTheorem.FlushProgress | experimental/sodium/transaction.cpp:96-103 | so does the flush of a coalescing stream |
| NetworkTheorem.DrainedMeans | experimental/sodium/transaction.cpp:96-103 | once the queue is empty every node has fired exactly its denotational firing list: map, filter, left then right, fold, scan |
| NetworkMeaning.MergeWithMeaning | experimental/sodium/sodium.h:102-104 | merge with a combining function fires at most once: the values of both sides combined from the left, every left one before every right one; for one firing on each side, the left one is the first argument |
| NetworkMeaning.MeaningOfMap | experimental/sodium/sodium.h:366-374 | a map fires the image of each value of its source, in order |
| NetworkMeaning.MeaningOfFilter | experimental/sodium/sodium.h:419-427 | a filter fires exactly the values that pass, in order |
| NetworkMeaning.MeaningOfMerge | experimental/sodium/sodium.h:376-396 | a merge fires what its left source does, then what its right source does |
| NetworkMeaning.MeaningOfCoalesce | experimental/sodium/sodium.h:398-417 | a coalescing stream fires once, each value combined as second argument with the result so far |
| NetworkMeaning.MeaningOfCollect | experimental/sodium/sodium.h:464-503 | the outputs and the final state follow the step function from state to state, starting at the state at the outset |
| NetworkMeaning.HandleSpelt | experimental/sodium/sodium.h:366-504 | what each kind of handler does to firings, queue, held value, memory and calls, field by field |
| NetworkMeaning.SendSpelt | experimental/sodium/sodium.h:319-345 | a send records one firing and queues exactly one entry for each listener, numbered on, under the rank of its node |
| StreamEngine.Engine.Send | experimental/sodium/sodium.h:319-345 | records the firing, schedules the clearing of a node's firings on its first firing only, and queues exactly one entry for each listener, under its rank |
| StreamEngine.Engine.SendSink | experimental/sodium/sodium.h:358-363 | before the transaction closes, a send only adds to that sink's inputs |
| StreamEngine.Engine.Handle | experimental/sodium/sodium.h:366-504 | each kind of handler does exactly what `Handled` says: which value is sent, to whom, and what is held, remembered or called |
| StreamEngine.Engine.Drain | experimental/sodium/transaction.cpp:96-103 | for any strictly ranked static network and any sinks' inputs: terminates, and every node has fired exactly its meaning |
| StreamEngine.Engine.Close | experimental/sodium/transaction.cpp:92-114 | every listener has been called with exactly its meaning, every accumulator holds the state its inputs lead to, and nothing queued, fired or held is left for the next transaction |
| WorkerPool.RunKeeps | sodium/transaction.cpp:371-401 | over every interleaving every entry ever put on the queue is processed, in flight or queued exactly once, and a queue that is not empty has a worker that has not exited |
| WorkerPool.JoinedMeansDrained | sodium/transaction.cpp:404-414 | with at least one worker, when all are joined the queue is empty and every issued entry was processed exactly once |
| WorkerPool.RunInOrder | sodium/transaction.cpp:382-383 | with any number of workers entries are taken in the order in which they were put, and deliveries are those of the finished entries |
| WorkerPool.OneWorkerInOrder | sodium/transaction.cpp:371-401 | one worker finishes the initial entries, then what they pushed, and so on, first in, first out |
| WorkerPool.NobodyLeavesEarly | sodium/transaction.cpp:379-381 | no worker returns before the finished flag is set |
| WorkerPool.DrainsIffWorkers | sodium/transaction.cpp:97-99 | every completed run drains the queue if and only if there is a worker or there was no work |
| WorkerPool.NeverStuck | sodium/transaction.cpp:376-401 | a pool that is not joined can always take a step |
| WorkerPool.RunsEnd | sodium/transaction.cpp:371-401 | with well-founded handlers the length of every run is bounded in advance |
| Confluence.StepInvariant | sodium/transaction.cpp:371-401 | deliveries made plus the expansion of queued and in-flight entries never change |
| Confluence.DeliversExpansion | sodium/transaction.cpp:349-414 | every completed run delivers exactly the expansion of the initial entries |
| Confluence.ListenersHearTheSame | sodium/sodium_base.h:539-550 | with map, filter, merge and listen handlers, two completed runs with any worker counts and interleavings hand every listener the same values equally often: what the initial entries expand to |
| Confluence.ExpandJob | sodium/sodium_base.h:659-699 | a map hands its image to each handler at its output, a filter hands on the value exactly if it passes, a merge side hands it on, a listener hears it once |
| PostQueue.Partition.Hold | sodium/sodium.h:110-120 | sets the pending update to the value and records the delivery; a cell's first update since its last finalize queues exactly one finalize; for a cell that is gone nothing changes |
| PostQueue.Partition.Fire | sodium/sodium.cpp:151-164 | puts the value in front of the node's firings; a first firing queues exactly one clearing |
| PostQueue.Partition.RunBody | sodium/transaction.cpp:149-163 | a running action's nested posts and transactions have exactly their effects, and run no other action before it returns |
| PostQueue.Partition.RunFinalize | sodium/sodium_base.h:469-472 | a finalize always finds an update to take |
| PostQueue.Partition.ProcessPost | sodium/transaction.cpp:140-173 | runs the queue first in, first out until it is empty, including what the actions post directly or from transactions of their own; a call from inside a running action changes nothing |
| PostQueue.Partition.Transact | sodium/transaction.cpp:472-509 | an inner or re-entrant transaction has exactly its effects and runs no action; an outermost one outside the post loop returns with the queue empty, having run, in order, exactly the actions queued and posted and all that they post in turn, and delivered exactly their values in that order; a value delivered last, on a quiet partition and with nothing posted, is what its cell holds afterwards |
| PostQueue.SingleEffect | sodium/sodium.h:110-120 | what one delivery, firing, post or inner transaction amounts to |
| PostQueue.EffectsInOrder | sodium/transaction.cpp:118-127 | effects amount to what they do one after the other, in order |
| PostQueue.CommandAt | sodium/transaction.cpp:149-163 | an action's body posts and runs what its commands say, in order |
| PostQueue.LastOfIsLast | sodium/sodium_base.h:461-472 | a cell's last delivered value is that of the last delivery to it |
| PostQueue.QuietMeansSettled | sodium/transaction.cpp:140-173 | between top-level transactions every posted action has run once and in order, each cell holds its last delivered value or its initial one, and no firing is left |
| CountSet.PackedIsPlain | sodium/count_set.h:104-178 | increments and decrements of the counters, small or large and across the switch, are those of three plain counters, and an increment is undone by a decrement, for any field widths |
| CountSet.CountersApart | sodium/count_set.h:88-103 | each operation counts its own kind of handle only; active is strong, or both stream and node; alive is any |
| CountSet.LargeWhenFull | sodium/count_set.h:104-178 | the small form is left exactly when a field is full, and never entered again |
| CountSet.PackedReadsBack | sodium/count_set.h:32-38 | the flag and the three bit fields packed into one number do not disturb each other, for any widths |
| CountSet.PackedFitsWord | sodium/config.h:15-24 | the fields of 1, 14 and 14 bits and of 1, 31 and 31 bits fit into a machine word with the flag |
| CountSet.PackedCountsUp | sodium/count_set.h:104-118 | adding one in the lowest bit of a field counts up that field alone |
| CountSet.WrapsAtLimit | sodium/count_set.h:104-118 | the packed increment is the plain one exactly while the counter stays below the width of `unsigned` |
| CountSet.CountSet.Inc | sodium/count_set.h:104-118 | the in-place increment of the packed number, switching to a pointer with a clear flag bit when a small field is full |
| CountSet.CountSet.Dec | sodium/count_set.h:119-128 | the in-place decrement of the packed number or of the large counters |
| Lifetime.RunKeeps | sodium/sodium_base.h:107-127 | in every interleaving of taking and dropping handles the counters are the handles held plus one for a cleaning in progress, of which there is at most one |
| Lifetime.ReleaseDrops | sodium/sodium_base.h:107-127 | dropping a handle starts the cleanups exactly when it leaves no strong handle and not both a stream and a node handle, and only once; it frees the object exactly when it leaves no handle and no cleaning |
| Lifetime.AddRefTakes | sodium/transaction.cpp:44-49 | taking a handle counts that kind of handle and changes nothing else |
| Lifetime.LeaveFrees | sodium/sodium_base.h:119-126 | the end of a cleaning frees the object exactly when no handle is left |
| Lifetime.AddCleanupQueues | sodium/sodium_base.h:229-242 | an added cleanup goes ahead of the others before the walk, is dropped during it, and runs at once after it |
| Lifetime.FreedOnceAfterCleanups | sodium/sodium_base.h:107-127 | the object is freed at most once, exactly when no handle and no cleaning is left, with its function gone and its cleanups over, and nothing happens to it afterwards |
| Lifetime.AllRanIffNoneLate | sodium/sodium_base.h:229-242 | every cleanup of a freed object ran exactly once if and only if none was added while they were being run |
| Lifetime.CleanupCanBeLost | sodium/sodium_base.h:229-242 | a run, for any field widths, that frees the object with a cleanup never run |
| Lifetime.NotStuckBeforeFree | sodium/transaction.cpp:44-84 | an object that is not freed is still held or being cleaned |
| Timers.PopDue | sodium/time.h:33-49 | takes the least event if it is due, and reports none exactly when none is due |
| Timers.TimerSystem.DoCancel | sodium/time.h:135-143 | the alarm's event, and no other, leaves the queue; what is cancelled stays out of queue and log in every valid state, across all later ticks |
| Timers.TimerSystem.SetAlarm | sodium/time.h:156-170 | the alarm has at most the one queued event, for the new deadline |
| Timers.TimerSystem.StartPeriodic | sodium/time.h:220-233 | in any valid system a new timer is first due one period after the current time, if it has a period, and leaves the other alarms alone |
| Timers.TimerSystem.Tick | sodium/time.h:199-213 | in any valid system in which no running timer without a positive period is due, the loop ends; everything queued that is due has fired and nothing cancelled has; what fired since order last held, this tick included, is sorted by (time, number); running timers stay at the first multiples of their periods |
| Timers.TimerSystem.TickOne | sodium/time.h:201-212 | one turn from such a state leaves less to do; from any other it leaves more to do and the same kind of state, so there the loop never ends |
| Timers.FiredExactlyWhenDue | sodium/time.h:199-213 | a running timer has fired, since it got its present period, at its start plus j periods if and only if that time has come, whatever the other alarms do |
| Timers.TimerSystem.SetPeriod | sodium/time.h:226-231 | the new deadline counts from the last firing and starts a new epoch of firings, or the timer is switched off; firing order survives exactly when the deadline is not before an alarm that already fired |
| Timers.TimerSystem.StartAt | sodium/time.h:146-170 | a new one-shot alarm has its deadline queued and leaves the other alarms alone |
| Timers.TimerSystem.SetDeadline | sodium/time.h:156-170 | an alarm that listens trades its event for one at the new deadline; one that was disposed of does nothing |
| Timers.TimerSystem.Dispose | sodium/time.h:171-174 | the alarm's event is cancelled and the alarm never sets another |
| Timers.TimerSystem.Fire | sodium/time.h:206-210 | a timer with a period is set one period later, anything else sets nothing; order, cancellations and the other timers are kept |
| Timers.OrderCanBeLost | sodium/time.h:226-231 | two timers and one change of a period after which a later alarm has fired before an earlier one |
| Router.RoutingTable.FilterEquals | sodium/router.h:111-135 | the table gains exactly that route, behind those with an equal key |
| Router.RoutingTable.Cleanup | sodium/router.h:124-131 | the table loses exactly the routes to that target |
| Router.RoutingTable.Handle | sodium/router.h:46-56 | for every history, sends to exactly the targets of the live registrations with that selector, in order of registration |
| Router.LiveSpelt | sodium/router.h:111-135 | live are the registrations not disposed of since, in order of registration |
| Router.InsertMatching | sodium/router.h:119 | inserting into the multimap serves equal keys in order of registration |
| Router.EraseIsWithout | sodium/router.h:128 | erasing one entry removes one registration |

## Left out

- Handle operations on a heap whose counts the delete loop has already broken: what follows an escaping decrement is undefined in the original.
- The capturing list while a contents is being copied: `Assign` models its net effect. Copies made and destroyed on the way cancel out in counts and children; the colours and buffer flags they leave are modelled by the argument `copied`.
- Machine overflow of ranks, sequence numbers and the 28-bit link count; these are natural numbers here.
- Graphs that change while a transaction drains its queue (`switch`, `once`, linking from inside a handler) in the network theorem, and late listeners that replay earlier firings.
- The network model has one type of values; a network over several types is read through their sum.
- Experimental cells (`hold`, `sample_lazy`): their value and pending value share one receptacle, so cells are modelled on the other engine.
- Post actions that reopen the closing transaction of the experimental engine and add entries to a queue no longer drained.
- Several client threads sharing one partition, and the mutexes and condition variables themselves: a lock is an atomic step.
- Coalescing under more than one worker, which reads and clears its state without the lock.
- The race between adding a cleanup, which takes no lock, and the clearing of the list and of the function at the end of the cleanups: each is one step here.
- Actions that throw out of the post loop.
- The send that follows a cell's update in the hold handler is a firing of its own in `PostQueue`.
- Lazy cell states, `lift` and `apply`, `promise`, `light_ptr`, `lock_pool`, deprecated aliases: they carry values and types around and change no state that the modelled parts depend on.
- Router loops: registrations queued before the loop is closed are registered in order when it closes.
- The rank links and target nodes that the router and the timers create; ranks are covered by `Ranks`.
- In-place updates of `struct link` objects are modelled on one heap object holding a map for each field; two pointers to one link are two equal addresses.
