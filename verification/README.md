# Smart Waste Management: a verified model of the back-end core

This project models the back end of the "Smart Waste Management" system in
Dafny: `DSA_mini_project/src/main.c` and the records of
`DSA_mini_project/include/core.h`. The model covers these parts of the C code:

- **The bin registry.** This is the `head` list: `addBin`, `deleteBin`,
  `updateFillLevel`, `findBinByID`, `validateBinID`, `validateFillLevel` and
  `createBin`. A bin's priority score is `2*fill - 5*distance`, truncated to
  an `int`.
- **The two dispatch queues.**
  - The routine FIFO takes bins below 90 %: `enqueue` and `deletefromqueue`.
  - The urgent list is kept in descending priority: `priorityenqueue` and
    `deletefrompriorityqueue`.
  - `classify` routes a bin to one queue or the other.
- **The distance sort.** `insertBST`, the two in-order drains, and
  `queueBinsByDistance`, which rebuilds both queues from the registry.
- **The truck dispatcher.**
  - The operations are `popPriorityTarget`, `popNormalTarget`,
    `markBinCollectedAndRequeue`, `travelTime`, `simulateTruckCollection` and
    `getLastDispatchSummary`.
  - A dispatch takes the urgent head if there is one, else the routine head.
  - It then empties every bin of that area that holds waste and records a
    summary.
- **Time passing.** `simulateFillLevelIncrease`; the random increases are a
  parameter.
- **The area-distance table and the status counts.** `getAreaDistance`,
  `setAreaDistance`, `freeAreaDistances`, and the counting loop of
  `displaySystemStatus`.

The process-wide globals become one immutable `State` record
(`SystemState`):

- the registry;
- the routine queue;
- the urgent queue;
- the static `lastDispatchSummary`.

Every C operation is a pure function from the state before to the state
after. A `Step` carries the C return value (`Done` or `Failed(error)`) next
to the new state.

Queue nodes in `core.h` carry their own copies of the five bin fields. A
queue entry is therefore a `Bin` value: a snapshot taken when it was
enqueued. A BST node only points at a registry bin, so the tree is a
`Tree` of registry values.

The invariant `Valid` holds after every operation:

- bin ids are unique;
- every bin is well formed: fill level 0..100, distance ≥ 0, priority equal
  to the score;
- every queue entry is an up-to-date copy of a registry bin, in the queue its
  fill level calls for;
- neither queue repeats an entry;
- the urgent queue is in non-increasing priority.

Modules follow the structure of the C file:

| module | file | contents |
|---|---|---|
| `Wrappers` | `wrappers.dfy` | `Option` |
| `Bins` | `bins.dfy` | the bin record and the per-bin rules |
| `BinLists` | `bin_lists.dfy` | lookup, unlinking and filtering shared by the registry and the queues |
| `Queues` | `queues.dfy` | the FIFO and the urgent insertion, both as written and as intended |
| `DistanceSort` | `distance_sort.dfy` | the BST, its drains, and a stable insertion sort as the reference definition |
| `SystemState` | `system_state.dfy` | the global state and its invariant |
| `Registry` | `registry.dfy` | the registry operations |
| `Ordering` | `ordering.dfy` | `queueBinsByDistance` |
| `Dispatch` | `dispatch.dfy` | the dispatcher |
| `FillSimulation` | `fill_simulation.dfy` | the fill-level increase |
| `AreaDistances` | `area_distances.dfy` | the area-distance table |
| `Status` | `status.dfy` | the status counts |

Modelling decisions:

- **Distances.** The C `float` distance is an exact `real`.
- **Priority.** The `int` priority is the truncation toward zero of
  `2*fill - 5*distance`, written out as `Bins.Trunc`. That is C's
  float-to-int conversion.
- **Travel time.** `travelTime` is exact real arithmetic. A round trip of `d`
  km at 30 km/h therefore takes `4*d` minutes, and the recorded total is
  `4*d + 3*binsCollected`.
- **`popPriorityTarget` does not compile as written.** At main.c:538 it reads
  an undeclared `bin`. The model gives it the evident meaning, that of
  `popNormalTarget` (main.c:562-572): report the live registry bin's fields
  when the popped id still resolves, and the queue copy's fields otherwise.
- **The pops' -1 return.** `popPriorityTarget` and `popNormalTarget` return
  the popped bin's id, or -1 on an empty queue. `simulateTruckCollection`
  only compares that id with -1, while `validateBinID` accepts -1 as a bin
  id. The model's pops return an `Option`, so an empty queue is `None`. The
  dispatch built on it (`Dispatch.PickTarget`, `Dispatch.SimulateTruckCollection`)
  serves a bin of id -1 like any other. The written comparison is modelled
  separately (`Dispatch.PickTargetAsWritten`, see Findings). The two agree
  whenever no bin has id -1 and the written rebuild does not crash
  (`Dispatch.AsWrittenAgrees`). Both dispatches rebuild with the corrected
  urgent insertion; the written rebuild can reach the crashing middle branch
  of `priorityenqueue` (`Ordering.RebuildCrashReachable`).
- **The middle branch of `priorityenqueue`.** As written, this branch always
  dereferences NULL (see Findings). The rest of the model uses the evidently
  intended insertion: the new entry goes before the first entry of strictly
  lower priority.
- **`queueBinsByDistance` builds two trees in one pass over the registry.**
  An insertion into one tree never touches the other. Each tree is therefore
  modelled as the tree built from its own share of the registry, taken in
  registry order.

## Model

| member | source | states |
|---|---|---|
| Bins.Trunc | DSA_mini_project/src/main.c:55 | The stored priority is the score truncated toward zero: within one point of the score, on the side of zero |
| Bins.PriorityOf | DSA_mini_project/src/main.c:55 | The stored priority has the sign of the score `2*fill - 5*distance` and lies strictly within one point of it |
| Bins.ValidFillLevel | DSA_mini_project/src/main.c:69-71 | `validateFillLevel` accepts exactly the levels 0..100; `Registry.UpdateFillLevel` fails with `FillOutOfRange` exactly when it refuses, and so does `Registry.AddBin` for a free id |
| Bins.CreateBin | DSA_mini_project/src/main.c:45-58 | A new bin carries the given id, area, distance and fill level, and the priority score of that level and distance |
| Bins.PriorityMonotone | DSA_mini_project/src/main.c:55 | A fuller or nearer bin never gets a lower priority, even after truncation |
| Bins.PriorityExactAtWholeDistance | DSA_mini_project/include/core.h:10-17 | At a whole-kilometre distance the integer priority is exactly 2*fill - 5*km |
| Bins.Emptied | DSA_mini_project/src/main.c:441-442 | A collected bin keeps its id, area and distance, has fill 0, is not urgent, and stays well formed |
| BinLists.FindIndex | DSA_mini_project/src/main.c:183-190 | The lookup returns the first position holding the id, and returns None exactly when no bin has it |
| BinLists.FindBin | DSA_mini_project/src/main.c:183-190 | `findBinByID` returns a registry bin with that id, and returns NULL exactly when the id is absent |
| BinLists.FindIndexUnique | DSA_mini_project/src/main.c:183-190 | With unique ids, looking up a bin's own id finds that bin's position |
| BinLists.ValidateBinId | DSA_mini_project/src/main.c:60-67 | `validateBinID` is true exactly when no registry bin has the id |
| BinLists.RemoveById | DSA_mini_project/src/main.c:321-344 | Unlinking removes exactly the first node with the id and keeps the others in order; an absent id changes nothing |
| BinLists.RemoveByIdMultiset | DSA_mini_project/src/main.c:377-400 | Unlinking takes away exactly one entry, the first one with the id |
| BinLists.RemoveByIdClears | DSA_mini_project/src/main.c:321-344 | In a queue of distinct live registry copies, no node with the id survives the unlink, and no entry is repeated |
| BinLists.Select | DSA_mini_project/src/main.c:807-813 | The registry pass hands a bin to the urgent tree exactly when it is at 90 or more, and to the routine tree otherwise; no bin is handed on twice |
| BinLists.SelectKeepsOrder | DSA_mini_project/src/main.c:807-813 | The pass keeps registry order: selecting from two consecutive runs of bins gives the two selections one after the other |
| BinLists.SelectOne | DSA_mini_project/src/main.c:808-812 | A single bin is handed to a tree exactly when its urgency matches that tree |
| Queues.Enqueue | DSA_mini_project/src/main.c:304-319 | The new copy goes at the tail; the entries ahead of it are unchanged |
| Queues.PriorityEnqueue | DSA_mini_project/src/main.c:346-375 | The corrected insertion adds exactly the new entry. A priority ≥ the head goes in front (ties too). A priority < the tail goes last. A non-increasing queue stays non-increasing |
| Queues.PriorityEnqueuePosition | DSA_mini_project/src/main.c:367-374 | The corrected insertion puts the entry where every entry ahead of it is at least as high and every entry behind it is no higher |
| Queues.ScanStop | DSA_mini_project/src/main.c:369-372 | The scan as written stops at the first entry whose priority exceeds the new one |
| Queues.PriorityEnqueueAsWritten | DSA_mini_project/src/main.c:346-375 | The code as written; when it does not crash, it adds exactly the new entry |
| Queues.AsWrittenMiddleBranchDereferencesNull | DSA_mini_project/src/main.c:361-374 | Whenever the new priority is below the head and not below the tail, the code as written dereferences NULL |
| Queues.AsWrittenCrashExample | DSA_mini_project/src/main.c:367-374 | Three well-formed bins at fill 90, at 34, 36 and 35 km, have priorities 10, 0 and 5. With the first two queued, the third crashes as written, and the corrected insertion gives 10, 5, 0 |
| Registry.AsWrittenCrashReachable | DSA_mini_project/src/main.c:72-96 | Two `addBin` calls from the empty system queue exactly those two bins as the urgent list. A third `addBin` passes every validation and reaches the crashing middle branch |
| Queues.AsWrittenWhenDefined | DSA_mini_project/src/main.c:346-375 | Whenever the written insertion does not crash, its result is the corrected insertion's |
| Registry.RebuildCrashAdds | DSA_mini_project/src/main.c:72-96 | Bins of fill 100 at 39 km (priority 5), then fill 90 at 34 km (priority 10) and at 36 km (priority 0), added from the empty system: no written insertion crashes, and the urgent list is 10, 5, 0 |
| DistanceSort.DrainToPriorityAsWritten | DSA_mini_project/src/main.c:786-791 | The written in-order drain into the urgent list, which crashes when any insertion does; when it does not, it adds exactly the tree's bins |
| DistanceSort.DrainAsWrittenWhenDefined | DSA_mini_project/src/main.c:786-791 | Whenever the written drain does not crash, it builds the same list as the corrected drain |
| Ordering.RebuildCrashReachable | DSA_mini_project/src/main.c:794-830 | After the three `addBin` calls of `Registry.RebuildCrashAdds`, the rebuild's urgent tree yields 34, 36, 39 km in order, and the written drain crashes on the third bin: 5 lies below the head 10 and not below the tail 0 of the list 10, 0 |
| Queues.RemoveByIdKeepsOrder | DSA_mini_project/src/main.c:377-400 | Unlinking a node from the urgent list keeps it in non-increasing priority |
| DistanceSort.InOrderInsert | DSA_mini_project/src/main.c:253-258 | `insertBST` inserts stably into the in-order sequence: nearer goes left, ties go right |
| DistanceSort.Insert | DSA_mini_project/src/main.c:253-258 | `insertBST` sends a strictly nearer bin left and an equal or farther one right; `DistanceSort.InsertMultiset` and `DistanceSort.InOrderInsert` state what it does |
| DistanceSort.InsertMultiset | DSA_mini_project/src/main.c:253-258 | `insertBST` adds exactly the one bin to the tree and loses none |
| DistanceSort.Build | DSA_mini_project/src/main.c:807-813 | The tree built by inserting a sequence of bins first to last holds exactly those bins |
| DistanceSort.BuildInOrder | DSA_mini_project/src/main.c:253-258 | The in-order walk of the tree built from a sequence is the stable insertion sort of it, sorted by distance |
| DistanceSort.InsertionSortMultiset | DSA_mini_project/src/main.c:807-813 | Sorting neither loses nor duplicates a bin |
| DistanceSort.InsertionSortSorted | DSA_mini_project/src/main.c:253-258 | The reference sort is in non-decreasing distance |
| DistanceSort.InsertionSortStable | DSA_mini_project/src/main.c:253-258 | Bins at equal distance keep their registry order |
| DistanceSort.BstSortIsStable | DSA_mini_project/src/main.c:779-784 | Draining the BST yields a sorted, stable permutation of the inserted bins |
| DistanceSort.DrainToQueue | DSA_mini_project/src/main.c:779-784 | `inorderBSTtoQueue` appends the tree's in-order sequence to the queue |
| DistanceSort.DrainToPriority | DSA_mini_project/src/main.c:786-791 | `inorderBSTtoPriorityQueue` adds exactly the tree's bins and keeps the urgent list ordered |
| SystemState.InitialValid | DSA_mini_project/src/main.c:289-294 | The start-up state, with empty lists and a zero summary, satisfies the invariant |
| SystemState.QueuedAtMostOnce | DSA_mini_project/include/core.h:26-44 | In a valid state each queue copy equals the live bin with its id; no bin is queued twice or in both queues; an urgent entry is never empty |
| SystemState.QueuesNeedBins | DSA_mini_project/src/main.c:795-798 | In a valid state, an empty registry means both queues are empty |
| Registry.Classify | DSA_mini_project/src/main.c:296-302 | A bin at 90 or more is added to the urgent list, keeping it ordered, with the routine queue untouched. Any other bin goes at the routine tail, with the urgent list untouched |
| Registry.AddBin | DSA_mini_project/src/main.c:72-96 | Validation goes in order: taken id, then fill out of 0..100, then negative distance. Any failure changes nothing. Success appends the new bin at the registry tail, then inserts it by priority into the urgent queue when its fill is at least 90, and otherwise appends it to the routine queue; the other queue is untouched |
| Registry.AddBinValid | DSA_mini_project/src/main.c:72-96 | `addBin` keeps the invariant; the new bin is urgent-queued exactly when its fill is at least 90, and routine-queued otherwise |
| Registry.DeleteBin | DSA_mini_project/src/main.c:98-126 | Deleting fails on an empty registry or an absent id. It unlinks the id from both queues first; on success it removes that bin and keeps the others in order |
| Registry.DeleteBinValid | DSA_mini_project/src/main.c:98-126 | `deleteBin` keeps the invariant; afterwards no bin and no queue node has the id; a failed delete changes nothing |
| Registry.Refilled | DSA_mini_project/src/main.c:169-170 | A bin given a new level keeps its id, area and distance, and a valid new level keeps it well formed |
| Registry.UpdateFillLevel | DSA_mini_project/src/main.c:151-181 | The range is checked before the id. Failure changes nothing. Success changes only that bin, setting its new level and recomputed priority. It unlinks the bin from both queues, then inserts it by priority into the urgent queue or appends it to the routine queue, as its new level calls for |
| Registry.UpdateFillLevelValid | DSA_mini_project/src/main.c:151-181 | `updateFillLevel` keeps the invariant, and the updated bin sits in exactly the queue its new level calls for |
| Registry.ClassifyKeepsValid | DSA_mini_project/src/main.c:296-302 | Classifying a registry bin that is in neither queue keeps the invariant and puts it in the right queue |
| Registry.MarkCollectedAndRequeue | DSA_mini_project/src/main.c:432-445 | Only the bin with the id is changed, and it is emptied. Its old copies are unlinked from both queues and the emptied copy joins the routine tail. An absent id changes nothing |
| Registry.MarkCollectedIsUpdateToZero | DSA_mini_project/src/main.c:432-445 | Marking a bin collected has the same effect as updating its fill level to 0 |
| Registry.MarkCollectedValid | DSA_mini_project/src/main.c:432-445 | `markBinCollectedAndRequeue` keeps the invariant |
| Ordering.ClearQueues | DSA_mini_project/src/main.c:760-776 | Clearing empties both queues and touches nothing else |
| Ordering.QueueBinsByDistance | DSA_mini_project/src/main.c:794-798 | The rebuild never changes the registry, and on an empty registry it changes nothing |
| Ordering.QueueBinsByDistanceSpec | DSA_mini_project/src/main.c:794-836 | After a rebuild of a non-empty registry: the routine queue holds exactly the bins below 90, stably sorted by distance; the urgent queue holds exactly the others, in non-increasing priority |
| Ordering.QueueBinsByDistanceValid | DSA_mini_project/src/main.c:794-836 | The rebuild keeps the invariant and queues every bin exactly once, in the queue its level calls for |
| Ordering.RebuiltRoutine | DSA_mini_project/src/main.c:829-830 | The routine queue after a rebuild is the stable distance sort of the routine bins |
| Ordering.RebuiltUrgent | DSA_mini_project/src/main.c:829 | The urgent queue after a rebuild holds exactly the urgent bins, in non-increasing priority |
| Dispatch.Resolve | DSA_mini_project/src/main.c:561-572 | A pop reports the live bin's fields when the id resolves, and the queue copy's fields otherwise |
| Dispatch.PopPriorityTarget | DSA_mini_project/src/main.c:532-554 | The pop reports nothing (C: returns -1) exactly on an empty urgent list. Otherwise it reports the head, whose id may itself be -1, and removes only it |
| Dispatch.PopNormalTarget | DSA_mini_project/src/main.c:556-578 | The pop reports nothing (C: returns -1) exactly on an empty routine queue. Otherwise it reports the head, whose id may itself be -1, and removes only it |
| Dispatch.PickTarget | DSA_mini_project/src/main.c:607-619 | The corrected selection, which does not confuse a bin of id -1 with an empty queue. It finds nothing exactly when both queues are empty, and then changes nothing. Otherwise it reports the urgent head, else the routine head, and the state afterwards is the state before with just that head popped |
| Dispatch.PopsKeepValid | DSA_mini_project/src/main.c:532-578 | In a valid state a pop reports the head bin's current fields and leaves a valid state |
| Dispatch.PickTargetSpec | DSA_mini_project/src/main.c:607-619 | In the corrected selection, the dispatcher tries the urgent head before the routine head and finds nothing only when both queues are empty; the pops keep the invariant |
| Dispatch.TravelTime | DSA_mini_project/src/main.c:582-584 | The time in minutes times the speed equals the distance times 60 |
| Dispatch.GetLastDispatchSummary | DSA_mini_project/src/main.c:838-843 | The accessor yields nothing exactly when the summary is not valid, and otherwise the summary itself |
| Dispatch.CollectFrom | DSA_mini_project/src/main.c:650-659 | The collection loop keeps the number of bins and the summary; `Dispatch.CollectFromBins` states which bins it empties |
| Dispatch.CollectTarget | DSA_mini_project/src/main.c:615-704 | Nothing changes when no target was popped, the id does not resolve or the bin is empty. Otherwise the whole state (bins and both queues) is the one the area collection leaves, and the summary holds the target's fields, the count, 4*distance + 3*count minutes and urgency at 90 or more |
| Dispatch.SimulateTruckCollection | DSA_mini_project/src/main.c:588-705 | A dispatch keeps the number of bins. When no summary is recorded, no bin changes. A recorded summary has total time 4*distance + 3*count and is flagged urgent exactly when the start fill is at least 90 |
| Dispatch.CollectFromBins | DSA_mini_project/src/main.c:650-659 | The collection loop empties exactly the bins of the area that held waste, leaves every other bin alone, and counts the emptied bins |
| Dispatch.CollectFromQueue | DSA_mini_project/src/main.c:650-659 | The emptied copies join the routine tail in registry order |
| Dispatch.CollectTargetDispatches | DSA_mini_project/src/main.c:622-704 | A popped bin holding waste gets its area collected and the summary recorded: target fields, count, 4*distance + 3*count minutes, and urgent when fill ≥ 90. The invariant holds afterwards |
| Dispatch.CollectTargetKeepsQueues | DSA_mini_project/src/main.c:432-445 | After a dispatch to a popped bin holding waste, both queues have lost exactly their entries of the target area holding waste; every other entry keeps its relative order, and the emptied copies follow at the routine tail in registry order |
| Dispatch.CollectFromQueues | DSA_mini_project/src/main.c:650-659 | The collection loop, from a position before which the area holds no waste, unlinks exactly the queue entries of the area holding waste and re-queues the emptied bins at the routine tail; nothing else in either queue moves |
| Dispatch.CollectedQueues | DSA_mini_project/src/main.c:650-659 | The collection loop over the whole registry leaves the queues as the previous row says |
| Dispatch.UncollectedRemove | DSA_mini_project/src/main.c:438-439 | Unlinking an id all of whose queue entries are about to be collected does not change which other entries remain, nor their order |
| Dispatch.CollectTargetAborts | DSA_mini_project/src/main.c:622-627 | A popped bin that is already empty aborts the dispatch without any change |
| Dispatch.DispatchEmptiesArea | DSA_mini_project/src/main.c:650-659 | After a dispatch every bin of the target area is empty, and the copies added at the routine tail are empty bins of that area |
| Dispatch.Rebuilt | DSA_mini_project/src/main.c:589-596 | A dispatch first invalidates the summary and rebuilds the queues, leaving the registry unchanged |
| Dispatch.RebuiltSpec | DSA_mini_project/src/main.c:589-596 | The rebuilt start state is valid and queues every bin by urgency, the routine queue sorted by distance |
| Dispatch.SimulateGoesToHead | DSA_mini_project/src/main.c:596-627 | In the corrected dispatch, the truck goes to the head of the rebuilt urgent queue, else of the routine queue. This is recorded when that bin holds waste; when it is empty the dispatch aborts and changes no bin |
| Dispatch.SimulateTruckCollectionSpec | DSA_mini_project/src/main.c:588-705 | `simulateTruckCollection` keeps the invariant. Either it records nothing and changes no bin, or it records a dispatch to a registry bin holding waste; then the popped queues lose exactly the entries of that area holding waste, the rest keep their order, and the emptied copies follow at the routine tail |
| Dispatch.SummaryNamesHead | DSA_mini_project/src/main.c:596-612 | When the corrected dispatch records a dispatch, the rebuilt queues were not both empty, and the recorded target id names exactly the bin at the head: the urgent head, else the routine head |
| Dispatch.SimulatePrefersUrgent | DSA_mini_project/src/main.c:607-612 | In the corrected dispatch, when some bin is urgent, the truck goes to an urgent bin of highest priority, and the summary says it was a priority run |
| Dispatch.SimulateNearestWhenNoneUrgent | DSA_mini_project/src/main.c:610-627 | In the corrected dispatch, with no urgent bin the truck goes to a nearest bin. If that bin is empty, the dispatch aborts whatever the other bins hold |
| Dispatch.PickTargetAsWritten | DSA_mini_project/src/main.c:607-619 | The written selection never yields id -1. It matches the corrected one when the urgent head, or with no urgent entry the routine head, is not -1. An urgent head of id -1 is popped and dropped, and the routine head is then served and popped. It finds nothing exactly when each queue is empty or has a head of id -1, and then both non-empty queues have lost their head |
| Dispatch.SimulateTruckCollectionAsWritten | DSA_mini_project/src/main.c:588-705 | The written dispatch keeps the number of bins, changes no bin when it records nothing, and never records target id -1 |
| Dispatch.AsWrittenAgrees | DSA_mini_project/src/main.c:588-627 | In a valid state with no bin of id -1, the written selection and the corrected one give the same dispatch from the same rebuilt queues. So the corrected dispatch's properties hold of the code as written whenever, in addition, the written rebuild does not crash |
| Dispatch.SentinelDispatchExample | DSA_mini_project/src/main.c:607-619 | After `addBin(-1, "A", 1.0, 95)` the written dispatch records nothing and leaves the bin full, while the corrected one collects it and records target -1 |
| Dispatch.SentinelWritten | DSA_mini_project/src/main.c:607-619 | With a single urgent bin of id -1, the written dispatch records nothing |
| Dispatch.SentinelCorrected | DSA_mini_project/src/main.c:588-705 | With a single urgent bin, the corrected dispatch records that bin as target and empties it |
| Dispatch.AbortedDispatchChangesNoBin | DSA_mini_project/src/main.c:615-627 | In any state, a dispatch that leaves no summary changes no bin |
| Dispatch.NothingToCollect | DSA_mini_project/src/main.c:615-627 | In any state where every bin is empty, the dispatch records nothing |
| Dispatch.TwoBinsSpec | DSA_mini_project/src/main.c:72-96 | Two valid bins with distinct ids added to the empty system give a valid state holding exactly those two bins, in order |
| Dispatch.DispatchExample | DSA_mini_project/src/main.c:630-704 | An urgent bin at 5 km and a 10 % bin in the same area are both emptied by one priority dispatch to the urgent bin, in 2*10 + 2*3 = 26 minutes |
| Dispatch.StalledStep | DSA_mini_project/src/main.c:622-627 | When no bin is urgent and the nearest bin is empty, a dispatch records nothing, changes no bin and leaves the same situation behind. Repeated dispatches alone therefore never leave it |
| Dispatch.DispatchStallExample | DSA_mini_project/src/main.c:622-627 | An empty bin at 1 km and a half-full bin at 5 km give the stalled situation of `Dispatch.StalledStep`. Repeated dispatches alone never reach the half-full bin, until some other operation changes the levels |
| Dispatch.PopNonEmptyNormalSpec | DSA_mini_project/src/main.c:622-627 | The corrected pop finds a routine entry holding waste exactly when the routine queue has one, and reports that live bin |
| Dispatch.PopNonEmptyNormal | DSA_mini_project/src/main.c:556-578 | The corrected routine pop changes no bin and no summary; it either drains the routine queue or reports a bin that resolves and holds waste |
| Dispatch.SimulateSkippingEmpty | DSA_mini_project/src/main.c:588-705 | The corrected dispatch keeps the number of bins, changes no bin when it records nothing, and records times and urgency as the written one does |
| Dispatch.SimulateSkippingEmptySpec | DSA_mini_project/src/main.c:588-705 | The corrected dispatch keeps the invariant and records a dispatch exactly when some bin holds waste |
| Dispatch.SkippingEmptyServesStallExample | DSA_mini_project/src/main.c:622-627 | In the stalled example the corrected dispatch goes to bin 2 and empties it |
| FillSimulation.Capped | DSA_mini_project/src/main.c:716-717 | The new level is exactly the smaller of the sum and 100: the sum whenever it is at most 100, and 100 otherwise |
| FillSimulation.CappedStaysValid | DSA_mini_project/src/main.c:715-717 | An increase of 5..24 keeps a valid level valid and never lowers it; it raises the level exactly when the level was below 100 |
| FillSimulation.RaiseFrom | DSA_mini_project/src/main.c:711-724 | The loop keeps the number of bins and the summary, and counts at most one update per remaining bin |
| FillSimulation.SimulateFillLevelIncrease | DSA_mini_project/src/main.c:708-728 | `simulateFillLevelIncrease` keeps the number of bins and the summary, and reports at most one update per bin |
| FillSimulation.RaiseFromSpec | DSA_mini_project/src/main.c:711-724 | From any position on, the loop grows each bin to min(level + increase, 100) with its priority recomputed, counts the bins that were below 100, and keeps the invariant |
| FillSimulation.SimulateFillLevelIncreaseSpec | DSA_mini_project/src/main.c:708-728 | Every bin grows by its increase, capped at 100. The count is the number of bins that were below 100. Afterwards every bin is queued once, in the queue its new level calls for |
| AreaDistances.FindArea | DSA_mini_project/src/main.c:456-465 | The table search finds the first node naming the area, and finds None exactly when no node names it |
| AreaDistances.GetAreaDistance | DSA_mini_project/src/main.c:456-465 | A lookup returns the first matching node's distance, or -1 when the area is absent |
| AreaDistances.SetAreaDistance | DSA_mini_project/src/main.c:467-482 | Setting an existing area overwrites it in place; a new area is pushed at the head |
| AreaDistances.FreeAreaDistances | DSA_mini_project/src/main.c:484-492 | After freeing, no area is in the table |
| AreaDistances.GetAfterSet | DSA_mini_project/src/main.c:456-482 | Reading an area right after setting it gives the distance just set |
| AreaDistances.SetLeavesOthers | DSA_mini_project/src/main.c:467-482 | Setting one area leaves every other area's reading unchanged |
| AreaDistances.SetKeepsUnique | DSA_mini_project/src/main.c:467-482 | Setting never creates a second node for the same area |
| AreaDistances.AbsentIffMinusOne | DSA_mini_project/src/main.c:456-465 | With non-negative distances, -1 is read exactly for the areas that are not in the table |
| Status.SystemStatus | DSA_mini_project/src/main.c:734-744 | The total counts every bin, the four buckets add up to the total, and the urgent bucket is the number of urgent bins |
| Status.StatusBuckets | DSA_mini_project/src/main.c:739-742 | For valid fill levels the buckets count the bins in 90-100, 70-89, 50-69 and 0-49 |
| Status.WarnsIffUrgent | DSA_mini_project/src/main.c:753-757 | The warning is printed exactly when some bin is urgent |
| Status.QueueSizesMatchStatus | DSA_mini_project/src/main.c:794-836 | After a rebuild the urgent queue is as long as the urgent count, and the routine queue as long as the other three buckets together |

## Left out

- The GTK/Cairo presentation layer. It only calls the core.
- All `printf` output and the display routines `displayBins`, `display`,
  `prioritydisplay`, `displayBSTInorder` and the printing half of
  `displaySystemStatus`. They have no effect on the state. The
  urgency-transition messages of `updateFillLevel` are left out for the same
  reason.
- `rand()`: `initializeRandomBins` and `getRandomFillLevel` are not
  modelled. The increases of `simulateFillLevelIncrease` are a parameter,
  each in 5..24.
- `malloc` failure, `free`, and the `rear`/`priorityrear` bookkeeping. The
  lists are sequences.
- The 50-character `area` buffers. The model keeps whole strings. The
  `strcpy` calls at main.c:52, 307, 349 and 478 do not truncate: an area of
  50 or more characters overflows its buffer, which the model does not
  represent. Only the `strncpy` calls at main.c:539, 544, 564, 569 and
  698 truncate, to 49 characters.
- Floating-point rounding. Distances and times are exact reals; only the
  conversion of the score to the `int` priority is modelled.
- `collectBinsFromArea`: it is never called on the dispatch path.
- Both `main` functions: the console menu and the GTK entry point.
- `freeLinkedList`: it frees every registry bin and sets `head` to NULL,
  which empties the registry. It leaves both queues in place, holding copies
  of freed bins. That state breaks `Valid`, because `SystemState.QueuesNeedBins`
  no longer holds. Its caller, the GUI reset, clears both queues first; the
  GUI layer is not part of this model.
- `freeBST`: memory release only.
- Queues.PriorityEnqueue: it models the evidently intended middle branch,
  not the NULL dereference of the written code. The written code is
  `Queues.PriorityEnqueueAsWritten`.
- Dispatch.PickTargetSpec: it states the corrected selection, not the
  written comparison with -1 that takes a bin of id -1 for an empty queue.
  `Dispatch.PickTargetAsWritten` states the written one (see Findings).
- Dispatch.SimulateGoesToHead: it states the corrected dispatch. The code as
  written behaves the same only when no bin has id -1 and its rebuild does
  not crash (`Dispatch.AsWrittenAgrees`). A head of id -1 is skipped or ends
  the dispatch (`Dispatch.SentinelDispatchExample`); the rebuild can crash
  in `priorityenqueue` (`Ordering.RebuildCrashReachable`).
- Dispatch.SummaryNamesHead: it states the corrected dispatch. It holds of
  the code as written whenever no bin has id -1 and the written rebuild does
  not crash, by `Dispatch.AsWrittenAgrees`.
- Dispatch.SimulatePrefersUrgent: it states the corrected dispatch. The code
  as written does not dispatch to an urgent bin of id -1. Without such a bin,
  and when the written rebuild does not crash, the lemma holds of it too, by
  `Dispatch.AsWrittenAgrees`.
- Dispatch.SimulateNearestWhenNoneUrgent: it states the corrected dispatch.
  The code as written reports "all bins are empty" when the nearest bin has
  id -1. Without such a bin, and when the written rebuild does not crash,
  the lemma holds of it too, by `Dispatch.AsWrittenAgrees`.
- Dispatch.PopPriorityTarget: it models the evident meaning of the
  undeclared `bin` at main.c:538 (the live-bin lookup of `popNormalTarget`),
  because the function as written does not compile.

## Findings

| source | as written | input that shows it | evidently intended | confidence | as-written member | corrected member |
|---|---|---|---|---|---|---|
| DSA_mini_project/src/main.c:367-374 | The middle branch scans while the new priority is at least the current entry's. Starting at the head, whose priority is higher, it stops at once with `prev == NULL`, and `prev->next = node` dereferences NULL. The rebuild at each dispatch and fill simulation (main.c:786-791) inserts the urgent bins in distance order and reaches the same branch, even when every `addBin` took the front or tail branch | Add bins of fill 90 at 34 km (priority 10) and at 36 km (priority 0), then a third at 35 km (priority 5): the third `addBin` reaches the middle branch. Or add fill 100 at 39 km (priority 5), then fill 90 at 34 km and at 36 km: every `addBin` succeeds, and the next dispatch's rebuild inserts 10, 0, then 5 and crashes (`Ordering.RebuildCrashReachable`) | Insert before the first entry of strictly lower priority, keeping the list in non-increasing order | not executed; high | Queues.PriorityEnqueueAsWritten | Queues.PriorityEnqueue |
| DSA_mini_project/src/main.c:596-627 | Each dispatch rebuilds the queues. With no urgent bin it pops the nearest bin, and if that bin is empty it aborts with "Target bin is already empty. Try again." The next dispatch rebuilds the same queue and aborts the same way, so repeated dispatches alone never serve the other bins. Only an operation that changes the bins ends it: a fill increase, an update, or a bin added or deleted. The situation is ordinary: a routine dispatch happens only when no bin is urgent, and it leaves its target at fill 0 with its distance unchanged. The next rebuild sorts the same bins in the same registry order by the same distances, so that bin is again the nearest, and the next dispatch always aborts unless some other operation runs in between | Bin 1 in area "A" at 1 km with fill 0; bin 2 in area "B" at 5 km with fill 50 | An empty routine target is skipped, so a truck is dispatched whenever some bin holds waste | not executed; medium | Dispatch.DispatchStallExample | Dispatch.SimulateSkippingEmptySpec |
| DSA_mini_project/src/main.c:607-619 | The pops return the popped bin's id, or -1 for an empty queue, and the dispatcher tests the id against -1. `validateBinID` (main.c:60-67) only checks uniqueness, so -1 is an accepted bin id. A popped urgent head of id -1 is read as "urgent queue empty" and a routine head of id -1 as "All bins are empty"; either entry is popped and never served | `addBin(-1, "A", 1.0, 95)` on an empty system, then a dispatch: the bin is popped, the routine queue is empty, "All bins are empty" is printed, and the 95 % bin stays full | A popped bin is served whatever its id; only an empty queue means there is nothing to dispatch | not executed; medium | Dispatch.SentinelDispatchExample | Dispatch.SimulateTruckCollectionSpec |
