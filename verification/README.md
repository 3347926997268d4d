# A model of the elastic Cilk runtime

The runtime steals work between the workers of a program, lets workers sleep and wake as cores come and go, and shares
the cores of a machine out among several programs. These modules model its protocols, its data structures, its core
scheduler and the divide-and-conquer benchmarks that run on it, and prove what they promise. `dafny verify
dfyconfig.toml` checks everything.

Code that changes state step by step is a class or a method here, proved against a step or a function of a state; what
that state promises is proved over all runs, all inputs or all interleavings.

## The parts

- **Work stealing** (`The`, `TheWorker`, `Exceptions`). One worker pushes and pops frames at `tail`, any number of
  thieves steal at `head`, `exc` is the flag of their Dekker protocol, and the platform writes `exc` to ask for sleep.
  Every memory access and lock operation is a step; every interleaving is a run. Each run looks like a run of an
  atomic deque, and each pushed frame is taken exactly once. `TheWorker` holds the code of the accesses and proves
  whole operations of the owner although any number of steps of others may come between two of their accesses.
  `Exceptions` says when the owner needs a lock to leave a frame, and that it answers a request to sleep.
- **Elastic workers** (`Elastic`, `ElasticCore`, `ParkedDeque`). Workers parked with work, parked idle and running
  share one array. Its regions move under a lock and the worker states by separate compare-and-swaps; a running worker
  may take the whole deque of a sleeping one. In every reachable state the regions are what they should be, and a
  woken worker leaves the region it is really in; a mugger picks one of the workers parked with work, whichever is
  drawn. `ParkedDeque` joins this protocol to the one of work stealing: what the one takes for granted of the deque of
  a parked worker is proved of the other.
- **Closures** (`ClosureTree`, `ClosureScheduler`, `Closures`, `ClosureForest`, `Stacklet`). How steals, syncs and
  returns hand fibers around, count children and suspend and resume closures, and where the stacks of the workers are
  meanwhile; the linked lists of siblings and of ready closures, and how over any run the lists hold the children of
  the tree; the promotion of a stacklet of frames.
- **Memory** (`InternalMalloc`, `ImAllocator`, `MallocSections`, `BlockReuse`, `FiberPool`, `FiberPools`,
  `FiberSections`, `FiberReuse`). A two-level block allocator with mutual recursion under a lock that is not
  recursive, and two-level pools of fibers with transfer in batches; whole calls, and the critical sections of calls
  of several workers in any order; what is reused before anything new is made, and how often the lock is needed.
- **Cores** (`PlatformScheduler`, `Platform`, `CorePlacement`, `CorePlacer`, `CoreShares`). Which cores every program
  tries to have, over any run of starts, ends and ticks, which cores it is then given, who gets and who loses which by
  the draws, and which way the wishes move.
- **Benchmarks** (`Cilksort`, `Lu`, `Strassen`, `Fft`, `ZOrder`, `ZMatmul`, with `Matrices`). Each is proved against
  the definition of its problem: a sorted rearrangement, two triangular factors, the matrix product, the Fourier sum,
  a bijective layout. Calls that are spawned together do not read what the others write, and give the same result in
  either order.

## What does not hold, and exactly when it does

- **The sleep signal.** Its load of `tail` and its store of `exc` are two steps. With a shadow stack of 1024 entries,
  the default, or more, a late store lets the owner pop a frame that a thief has stolen: `The.StaleSignalTakesTwice`
  gives the run, in which the compare-and-swap of the request succeeds first. No frame is ever taken twice if and only
  if the two steps are one or there are fewer than 1024 entries (`The.SafeExactlyBelowTheSignalOffset`).
- **The guarantee of a core.** It is one pass over the list, and a program that had its turn can lose its last core to
  a later one: `PlatformScheduler.OnePassIsNotEnough` gives a run with the platform's own seed.
  `PlatformScheduler.NobodyIsLeftOutExactly` says from the masks before the call when nobody is left out.
- **Placing twice.** The counts of placed cores are reset by the guarantee only; a second placement without it leaves
  every program its own core only (`CorePlacement.SecondPlacementMovesNothingExactly`).
- **Blocks of 2048 bytes.** Allocation asks for them with `>=` and freeing with `>`, so the loop that makes room in a
  full list of such blocks never ends; every other free ends (`InternalMalloc.RoundsOf2048`,
  `InternalMalloc.LoopEndsExactly`, `InternalMalloc.CanFreeExactly`; with calls of other workers in between,
  `MallocSections.FreeOf2048NeverEnds` and `MallocSections.EndsInTwoSections`).
- **Fiber pools of capacity 1.** Half of 1 is 0, so an empty pool stays empty after its refill and a full one full:
  `FiberPool.AllocationWorksExactly` and `FiberPool.DeallocationWorksExactly` hold if and only if a pool may hold two
  fibers or needed nothing.
- **binsplit on ties.** The place it returns is the one its comment describes if and only if the value does not occur
  or is the first element (`Cilksort.SplitMeetsComment`, `Cilksort.SplitMissesOnTies`); that it splits the range holds
  always.
- **cilkmerge of two empty ranges** would copy a negative number of bytes; the sort never asks for it, and
  `Cilksort.CilkMerge` requires one of its ranges not to be empty.
- **Matrix sizes of Strassen.** Divisibility by 16, which the comment asks for, is not enough; 16 times a power of
  two, which `main` checks, is exactly what the unrolled kernels need (`Strassen.KernelsFitExactly`).
- **Draws of the platform.** A program at place 65536 of the list or beyond is never picked, every other one for some
  state of the generator (`CoreShares.EveryPlaceIsDrawnExactly`).
- **The size of a Fourier transform.** The `int` that walks the table of roots is summed up before it is wrapped; the
  sum fits if and only if there are at most 2^30 roots (`Fft.TwiddleSumsFitExactly`).
- **The Z-order layout.** Row 65536 has the places of row 256 (`ZOrder.BeyondTheBound`), and the places of a matrix
  fit an `int` if and only if there are at most 2^31 of them (`ZMatmul.PlacesFitExactly`).

Aborts that are proved unreachable: those of the adaptive scheduler and of the verification after it
(`PlatformScheduler.NobodyAborts`), of a program with no core after the placement
(`CorePlacement.EverybodyHasItsOwnCore`), of a state "changed by others" in the elastic workers
(`Elastic.NoStateIsChangedByOthers`) and of a worker that goes to sleep with work (`The.SleepsWithEmptyDeque`).

## Model

| member | source | states |
|---|---|---|
| The.StepRefines | runtime/cilk-scheduler.c:577-596 | every step of owner, thief, other worker or signaller keeps the protocol's invariant and is at most one push, pop or steal of an atomic deque |
| The.RunKeepsInv | runtime/cilk-scheduler.c:756-865 | the pointers, locks, closures and exc agree at the end of every interleaving of one owner with any number of thieves, other workers and signallers, over sleeping in the runtime, parking with work and being asked again, for every stack depth for which the signal is safe |
| The.RunRefinesAtomicDeque | runtime/cilk2c.c:45-63 | every run is a history of an atomic deque, and the frames between head and tail are exactly what that deque holds |
| The.AtomicDequeConserves | runtime/cilk-scheduler.c:617-721 | in any history of the atomic deque pushes of a frame equal its takes plus its copies still inside |
| The.PushesAreNumbered | runtime/cilk2c.c:45-63 | each detach of a run pushes a frame of its own, once |
| The.ExactlyOnce | runtime/cilk2c.c:110-165 | in every run each pushed frame has been taken exactly once, by a pop or by a steal, or is still in the deque exactly once; nothing else is ever taken |
| The.NothingIsLost | runtime/cilk-scheduler.c:464-478 | when the handler gives the closure up because the deque is empty, every frame ever pushed has been taken |
| The.DequeOfClosures | runtime/readydeque.c:62-134 | whenever the deque lock is free the ready deque holds at most one closure, and the exception handler finds its own running closure there |
| The.ClaimIsVisible | runtime/cilk-scheduler.c:39-67 | a thief between its increment of exc and its head++ has exc >= head + 1 |
| The.StaleSignalTakesTwice | runtime/elastic.c:274-293 | from 1024 entries on, which is the default, there is a run in which the frame is taken twice: the request of platform_try_sleep_worker gets through, the worker gives the sleep up for a ready closure (runtime/cilk-scheduler.c:1228-1243), and the late store of exc lets the owner pop a frame that a thief has stolen |
| The.SafeExactlyBelowTheSignalOffset | runtime/elastic.c:277-278 | no run takes a frame twice if and only if the signal loads tail and stores exc in one step or the shadow stack has fewer than 1024 entries; signals come after requests, whose repetition may hit a worker in any state, and the failing run needs only requests that got through |
| The.ParkedKeepsItsClosure | runtime/cilk-scheduler.c:1150-1163 | a worker that sleeps with a frame in hand keeps its closure and head <= tail, whatever thieves take meanwhile, so a woken worker finds its deque empty only if it was mugged |
| The.SleepsWithEmptyDeque | runtime/cilk-scheduler.c:1423-1453 | a worker goes to sleep in the runtime only with an empty deque, so the abort there is unreachable |
| TheWorker.Worker.constructor | runtime/init.c:455-459 | a new worker is the initial state of the protocol, with head, tail and exc equal and one running closure |
| TheWorker.OthersKeepTo | runtime/cilk-scheduler.c:577-596 | no step of a thief, another worker or a signaller changes the owner's tail, takes a lock from it, lowers head or moves head while the owner has the deque lock |
| TheWorker.LiveMeanwhile | runtime/cilk-scheduler.c:617-721 | while the owner stands still the deque can lose its oldest frames only |
| TheWorker.Worker.Detach | runtime/cilk2c.c:45-63 | with any interference between its two stores, the frame becomes the youngest of the deque |
| TheWorker.Worker.LeaveFrame | runtime/cilk2c.c:110-165 | with any interference between its accesses, leave_frame pops the youngest frame of the deque, without a lock or under it, or parks with it, or everything was stolen |
| TheWorker.Worker.Handler | runtime/cilk-scheduler.c:399-479 | with any interference the exception handler finds the frame stolen exactly if the whole deque was, and otherwise keeps it, to return or to sleep first |
| TheWorker.Worker.Steal | runtime/cilk-scheduler.c:756-865 | undisturbed, a steal takes the oldest frame exactly if the top closure is running, not locked and has a frame, and otherwise leaves everything as it was, exc too |
| TheWorker.Worker.NextClosure | runtime/cilk-scheduler.c:118-135 | the returning closure is dropped and the next one set up with an empty deque; a worker that was asked to sleep asks itself once more |
| TheWorker.Worker.TrySleep | runtime/elastic.c:274-293 | a worker that is asked already stays as it is; otherwise it is asked, no leave_frame can miss that, and its deque is unchanged |
| Exceptions.SignalIsNoticed | runtime/elastic.c:277-278 | while the owner has a deque, exc is above tail once a signaller has written it, however long ago it has loaded that, and the next frame that the owner leaves takes it into the handler |
| Exceptions.WakesInTheRuntime | runtime/cilk-scheduler.c:1434-1446 | a worker that slept in the runtime is active again when it is woken |
| Exceptions.NobodyLeavesALock | runtime/cilk-scheduler.c:756-865 | over runs, the lock of the top closure is the owner's or the thief's only where their program counters say so, and another worker's only from the step in which that takes it |
| Exceptions.WakesUp | runtime/cilk-scheduler.c:1158-1172 | a worker that was parked with a frame in hand wakes up active, in user code, and with its frame |
| Exceptions.DozesOnRequest | runtime/cilk-scheduler.c:1423-1453 | a worker sleeps in the runtime only if it was asked to, and with nothing left |
| Exceptions.OperationsEnd | runtime/cilk2c.c:110-165 | whatever others do meanwhile, a detach, leave_frame or sync is over after at most 24 steps of the owner itself |
| Exceptions.StealsEnd | runtime/cilk-scheduler.c:756-865 | a steal, won or lost, is over after at most ten steps of the thief, which keeps the deque lock until then |
| Exceptions.RequestIsHonoured | runtime/cilk-scheduler.c:445-478 | whatever comes in between, a sleep request that stands when the owner enters the handler is answered by it: it decides to sleep, with the frame in hand if anything is left and without any otherwise |
| Exceptions.ParksOnRequest | runtime/cilk-scheduler.c:445-458 | the handler parks a worker only if it was asked to sleep and has a frame left |
| Exceptions.LeavesWithoutALock | runtime/cilk2c.c:110-165 | after the handler, or a return to a caller, has reset exc, no frame makes the owner enter the handler again until a thief claims one or somebody signals |
| Elastic.StepKeepsInv | runtime/cilk-scheduler.c:1056-1283 | each compare-and-swap, lock operation or statement of a worker that parks, wakes or mugs keeps the invariant of the regions |
| Elastic.ActionKeepsInv | runtime/elastic.c:274-441 | every step of a worker and every sleep request, activation and cancelled sleep of the platform, at any moment, keeps the invariant of the regions |
| Elastic.RunKeepsInv | runtime/elastic.c:129-161 | the invariant holds in every state of every run of any number of workers and platform threads |
| Elastic.RegionsHoldTheParked | runtime/cilk-scheduler.c:1150-1213 | with the elastic_core lock free the front region holds exactly the workers parked with work and the end region exactly those parked idle, but for one being mugged |
| Elastic.GroupIsPermutation | runtime/elastic.c:21-28 | in every state cpu_state_group is a permutation, elastic_pos_in_cpu_state_group is its inverse, and -1 <= ptr_sleeping_active_deque < ptr_sleeping_inactive_deque <= nproc |
| Elastic.SizeIsFixed | runtime/init.c:414-423 | no run changes the number of workers |
| Elastic.ThiefModulusIsPositive | runtime/cilk-scheduler.c:1516 | a running thief, which reads the pointer without a lock, never divides by zero |
| Elastic.NoStateIsChangedByOthers | runtime/cilk-scheduler.c:1122-1216 | every compare-and-swap on the way into or out of a region finds the state it expects, so the aborts behind them are unreachable |
| Elastic.OneClaimPerSleeper | runtime/elastic.c:408-416 | a worker parked with work is claimed by one mugger at most, and meanwhile nobody can activate it or cancel its sleep |
| Elastic.MuggingMovesTheDeque | runtime/elastic.c:129-161 | a mugging moves one full deque from a sleeper to a worker that had none, and no other worker changes |
| Elastic.SleeperKeepsDeque | runtime/elastic.c:408-441 | while a worker sleeps only a mugger empties its deque |
| Elastic.FullUnlessMugged | runtime/cilk-scheduler.c:1156-1163 | between parking with work and waking the deque is full if and only if no mugger has taken it |
| Elastic.WokenWorkerLeavesItsRegion | runtime/cilk-scheduler.c:1159-1213 | a worker woken after parking with work leaves the front region if nobody mugged it and the end region if somebody did, and is really in that region |
| Elastic.PicksTheDrawnOne | runtime/elastic.c:235-243 | over runs, a mugger picks another worker, one parked with work, at the drawn place of the front region; it gives up if and only if nobody is parked with work |
| Elastic.EverySleeperIsDrawn | runtime/elastic.c:235-243 | in every reachable state every worker parked with work is picked for some draw |
| Elastic.EveryChangeIsASwap | runtime/elastic.c:274-441 | over runs, the state of a worker changes by the compare-and-swaps of the platform, of its mugger and of itself only, each by whom it belongs to, and a sleep is given up only with work in hand |
| Elastic.WorksAfterMugging | runtime/cilk-scheduler.c:1122-1125 | a worker that has mugged another, or given that up, is active, in the middle and has a deque of work when it goes back to user code |
| Elastic.DrainsBeforeItParks | runtime/cilk-scheduler.c:1217-1258 | a worker told to sleep whose frames are gone parks idle only once its deque is drained, and one that sleeps in the runtime leaves its deque as it is |
| ElasticCore.Core.constructor | runtime/init.c:414-423 | everybody starts in the middle, in order |
| ElasticCore.Core.Exchange | runtime/elastic.c:21-28 | two workers exchange their places in the group and the inverse stays the inverse |
| ElasticCore.Mugging | runtime/elastic.c:129-161 | mugger and victim exchange deques, head, tail, exc, shadow stacks, good-steal flags and current frames, each frame names its new worker, and the deque limits stay where they are |
| ElasticCore.Core.EnterFront | runtime/cilk-scheduler.c:1152-1155 | pointer, then exchange: the two protocol steps by which, as CrossingMoves says, exactly this worker joins the front region |
| ElasticCore.Core.LeaveFront | runtime/cilk-scheduler.c:1165-1168 | exchange, then pointer: the two protocol steps by which exactly this worker leaves the front region |
| ElasticCore.Core.EnterIdle | runtime/cilk-scheduler.c:1260-1263 | the two protocol steps by which exactly this worker joins the end region |
| ElasticCore.Core.LeaveIdle | runtime/cilk-scheduler.c:1193-1196 | the two protocol steps by which exactly this worker leaves the end region |
| ElasticCore.Core.MoveMugged | runtime/cilk-scheduler.c:1114-1120 | the double exchange is the four protocol steps of which MuggingMoves speaks |
| ElasticCore.CrossingMoves | runtime/cilk-scheduler.c:1152-1168 | in every reachable state a worker under the lock can cross a border; it changes one region by itself and the other not at all |
| ElasticCore.MuggingMoves | runtime/cilk-scheduler.c:1114-1120 | in every reachable state a mugger's critical section can run to its end; it moves the victim from the front region to the rear and nobody else from one region to another |
| ParkedDeque.HandlerParksWithWork | runtime/cilk-scheduler.c:446-469 | a worker that parks in the handler has a closure in its deque, in the protocol of accesses as in that of the regions |
| ParkedDeque.ParkedDequesAgree | runtime/cilk-scheduler.c:1150-1163 | whatever thieves take while it sleeps, both protocols agree that its deque holds a closure exactly if no mugger has taken it |
| ClosureTree.StepKeepsInv | runtime/cilk-scheduler.c:756-865 | every steal, link, sync, return and set-return keeps the invariant of the closure tree |
| ClosureTree.RunKeepsInv | runtime/cilk-scheduler.c:1013-1060 | the invariant holds in every state of every run of any number of workers |
| ClosureTree.BaseIsFixed | runtime/cilk-scheduler.c:825-826 | the fiber a closure started on is remembered unchanged as long as the closure lives |
| ClosureTree.SyncRestoresFiber | runtime/cilk-scheduler.c:137-163 | however often a closure is stolen from, whenever it has synced it is back on the fiber it had, so fiber_child is never missing there |
| ClosureTree.FibersAreConserved | runtime/cilk-scheduler.c:986-1023 | every fiber ever allocated has been freed exactly once or is in exactly one place |
| ClosureTree.AssertionsHold | runtime/cilk-scheduler.c:298-355 | none of the assertions of the scheduler about fibers, children, join_counter, callees and status can fail in any run |
| ClosureTree.SuspendedIsWaiting | runtime/closure.c:280-303 | a suspended closure has a callee that will return to it or a child that it waits for |
| ClosureTree.ResumedExactlyBy | runtime/cilk-scheduler.c:241-296 | a suspended closure is resumed if and only if its last child returns while it has no callee, or its callee returns; never by both |
| ClosureTree.LinksLeadToTheVictim | runtime/closure.c:217-240 | while a thief forms the closures of a stacklet, and whatever others do meanwhile, the call parents lead from the youngest over as many as it has linked to the closure of the victim, all of them suspended on the fiber that that had |
| ClosureTree.StacksAreKnown | runtime/cilk-scheduler.c:900-937 | over runs, the fiber that the jumps put the stack pointer of a worker on is the fiber of the closure that it runs, whatever is stolen, synced and returned |
| ClosureTree.NoStackIsFreed | runtime/cilk-scheduler.c:986-997 | over runs, no fiber is freed that a worker stands on, or that it has still to free |
| ClosureTree.SyncedFiberWaits | runtime/cilk-scheduler.c:986-1001 | over runs, the fiber that a sync leaves, with or without children outstanding, is not freed by it, and is freed exactly when that worker next leaves for the runtime or syncs (lines 1290-1293) |
| ClosureTree.JoinCounterCounts | runtime/closure.c:59-62 | in every state of every run join_counter is the length of the sibling list, which holds exactly the closures spawned by the closure that have not returned, each once |
| ClosureScheduler.Scheduler.constructor | runtime/cilk-scheduler.c:118-135 | one worker is about to run the root closure |
| ClosureScheduler.Scheduler.StealOwn | runtime/cilk-scheduler.c:617-721 | a steal of the victim's own closure and its hand-over of fibers is that step of the closure tree |
| ClosureScheduler.Scheduler.StealYounger | runtime/cilk-scheduler.c:640-701 | a steal that makes a closure for the oldest stacklet, with the victim's closure suspended, is that step |
| ClosureScheduler.Scheduler.SetupForSync | runtime/cilk-scheduler.c:137-163 | the closure goes back to its fiber_child and its current fiber waits to be freed |
| ClosureScheduler.Scheduler.CilkSync | runtime/cilk-scheduler.c:957-1005 | Cilk_sync is the sync step, for a closure with and without children |
| ClosureScheduler.Scheduler.ProvablyGoodStealMaybe | runtime/cilk-scheduler.c:241-296 | the parent is taken over exactly if it has no child left, no callee, and is suspended |
| ClosureScheduler.Scheduler.ClosureReturn | runtime/cilk-scheduler.c:298-355 | Closure_return is the step of a child that returns, leftmost or not, with or without a fiber to pass on |
| ClosureScheduler.Scheduler.CilkSetReturn | runtime/cilk-scheduler.c:196-239 | Cilk_set_return is the step of a called closure that returns to its caller |
| Closures.Closure.constructor | runtime/closure.c:64-90 | a new closure is in no list and has no children |
| Closures.DoubleLink | runtime/closure.c:118-132 | two siblings are linked both ways and nothing else of them changes |
| Closures.AddChild | runtime/closure.c:164-188 | the sibling list that ends at right_most_child grows by the child at its right end, and join_counter counts it |
| Closures.Unlink | runtime/closure.c:134-162 | a closure leaves its list and its neighbours are linked both ways |
| Closures.RemoveChild | runtime/closure.c:190-215 | the list of siblings is the old one without the child, still well linked, and join_counter counts it |
| Closures.IsLeftmost | runtime/cilk-scheduler.c:318-326 | the test for a left sibling finds the leftmost child |
| Closures.ReadyDeque.constructor | runtime/init.c:402-412 | an empty deque |
| Closures.ReadyDeque.PeekTop | runtime/readydeque.c:43-60 | the top closure or none |
| Closures.ReadyDeque.PeekBottom | runtime/readydeque.c:89-105 | the bottom closure or none |
| Closures.ReadyDeque.XtractTop | runtime/readydeque.c:16-41 | the top closure leaves and the rest stays well linked |
| Closures.ReadyDeque.XtractBottom | runtime/readydeque.c:62-87 | the bottom closure leaves and the rest stays well linked |
| Closures.ReadyDeque.AddBottom | runtime/readydeque.c:118-139 | the closure is added below all others |
| Closures.Closure.BecomeCallee | runtime/closure.c:226-240 | callee and call parent become inverse |
| ClosureForest.Forest.constructor | runtime/closure.c:63-90 | the root closure alone mirrors the tree that a run starts from |
| ClosureForest.Forest.AddTo | runtime/closure.c:164-176 | a closure in no list becomes the youngest child; all other lists stay as they were |
| ClosureForest.Forest.RemoveFrom | runtime/closure.c:190-208 | a child leaves the list of its parent, whatever its place in it; all other lists stay as they were |
| ClosureForest.Forest.StealOwn | runtime/cilk-scheduler.c:617-721 | the links after a steal of the own closure are those of the tree after that step |
| ClosureForest.Forest.StealYounger | runtime/cilk-scheduler.c:617-721 | the links after a steal that makes a closure for a stacklet are those of the tree after that step |
| ClosureForest.Forest.Return | runtime/cilk-scheduler.c:298-355 | the links after the return of a child are those of the tree after that step |
| ClosureForest.Forest.IsLeftmost | runtime/cilk-scheduler.c:329 | the test of the left link finds the child that the tree calls the leftmost |
| ClosureForest.Forest.Step | runtime/closure.c:59-62 | whatever the step of the tree, the linked lists mirror its children again |
| ClosureForest.Forest.CountersAgree | runtime/closure.c:59-62 | the join counter of a closure, its linked list and the children that have not returned are one and the same number |
| ClosureForest.Play | runtime/closure.c:59-62 | over any run of the tree, of any number of workers, the linked lists hold exactly the children that have not returned, in their order, and the counters count them |
| Stacklet.OldestNonStolen | runtime/cilk-scheduler.c:490-501 | the walk up the call parents ends at the oldest frame of the stacklet, whatever its length |
| Stacklet.CallParents | runtime/cilk-scheduler.c:503-532 | one closure for each frame, each the callee of the next, all suspended on the fiber of the oldest, every frame marked stolen |
| Stacklet.SetupClosures | runtime/cilk-scheduler.c:534-570 | the chain of closures from the youngest to the oldest mirrors the chain of frames one to one |
| Stacklet.SetupClosuresInStacklet | runtime/cilk-scheduler.c:534-570 | for a stacklet of any length, with or without a frame of its own for the suspended closure: the whole stacklet is promoted, and frames beyond it are untouched |
| InternalMalloc.SizeToBucket | runtime/internal-malloc.c:37-44 | the search finds the smallest bucket that a size fits, or -1 above 2048 |
| InternalMalloc.CarveKeepsInv | runtime/internal-malloc.c:269-281 | carving a block, with a new chunk if the current one is too short, keeps all blocks apart and each in one place |
| InternalMalloc.GlobalAllocKeepsInv | runtime/internal-malloc.c:247-281 | the global allocation hands out a block that nobody holds and leaves every worker's list alone |
| InternalMalloc.RefillMoves | runtime/internal-malloc.c:358-375 | a batch moves blocks to one list of one worker; no block becomes live or ceases to be |
| InternalMalloc.GiveBackMoves | runtime/internal-malloc.c:380-393 | a batch back to the global list moves blocks of up to 1024 bytes there; no block becomes live or ceases to be |
| InternalMalloc.FilledHasABlock | runtime/internal-malloc.c:413-420 | after the refill the list has a block, so the assertion holds |
| InternalMalloc.DrainedHasRoom | runtime/internal-malloc.c:444-446 | after one batch a full list has room, so the loop ends |
| InternalMalloc.LoopEndsExactly | runtime/internal-malloc.c:444-446 | the loop that makes room ends if and only if the list has room or the blocks are not those of 2048 bytes |
| InternalMalloc.RoundsOf2048 | runtime/internal-malloc.c:403-434 | however many rounds it runs, the loop never makes room in the list of 2048 bytes, because its malloc goes to the system |
| InternalMalloc.MallocHandsOut | runtime/internal-malloc.c:398-424 | malloc returns a block that nobody holds, at least as large as asked for, apart from every live block, and changes no other block's holder |
| InternalMalloc.FreeTakesBack | runtime/internal-malloc.c:429-450 | free takes the block from its holder and from nobody else, whichever worker frees it |
| InternalMalloc.CheckPassesExactly | runtime/internal-malloc.c:88-108 | the used and num_malloc counters of all descriptors sum to 0 if and only if every block has been freed |
| InternalMalloc.OnePlaceOnly | runtime/internal-malloc.c:221-306 | a block in a list is in no other list and nobody holds it |
| InternalMalloc.LiveAreApart | runtime/internal-malloc.c:269-281 | live blocks never share a byte |
| InternalMalloc.CanFreeExactly | runtime/internal-malloc.c:429-446 | in every reachable state a free can end if and only if its block is of another bucket than the last or that list has room |
| InternalMalloc.CallKeepsInv | runtime/internal-malloc.c:398-450 | every legal call keeps the invariant |
| InternalMalloc.RunKeepsInv | runtime/internal-malloc.c:358-450 | over any run of calls by any workers count_until_free plus free-list length is the capacity in every bucket, blocks are apart and in one place each, and the counters sum to the live blocks |
| InternalMalloc.AllServed | runtime/internal-malloc.c:395-450 | in every reachable state every worker has the lists that a call with any size needs |
| MallocSections.BegunAsAsked | runtime/internal-malloc.c:398-450 | whatever others do first, a call comes to its first section with the size and the block that it was begun with |
| MallocSections.SectionKeepsGood | runtime/internal-malloc.c:358-393 | a critical section of one worker keeps the invariant while calls of others are under way, and changes no list of theirs |
| MallocSections.TraceKeepsGood | runtime/internal-malloc.c:395-450 | the invariant of blocks and lists holds in every state of every run in which the sections of the calls of any number of workers interleave |
| MallocSections.CanGoOn | runtime/internal-malloc.c:395-450 | no assertion of a call can fail, whatever sections came in between |
| MallocSections.OthersLeaveMine | runtime/internal-malloc.c:395-450 | a section or the begin of a call of another worker changes none of the own lists |
| MallocSections.MallocReturns | runtime/internal-malloc.c:395-424 | however its sections are interrupted, malloc returns a block that nobody holds, large enough and apart from every live block |
| MallocSections.FreeTakesAway | runtime/internal-malloc.c:426-450 | however its sections are interrupted, free takes the block from its holder and no other block from anybody |
| MallocSections.EndsInTwoSections | runtime/internal-malloc.c:395-450 | every malloc, and every free but those of 1025 to 2048 bytes, ends with its first or second section, whatever comes in between |
| MallocSections.FreeOf2048NeverEnds | runtime/internal-malloc.c:444-446 | a free of 1025 to 2048 bytes that finds its list full never ends in any run |
| BlockReuse.CarveGoesOn | runtime/internal-malloc.c:269-281 | a block is cut off right behind the last one as long as there is room; only when too few bytes are left does a new chunk begin, with this block |
| BlockReuse.GlobalListFirst | runtime/internal-malloc.c:247-281 | a block of the global list, the last that came, is reused before anything is carved |
| BlockReuse.RefillReuses | runtime/internal-malloc.c:358-378 | a batch takes what the global list has without carving anything |
| BlockReuse.ChunksAreFilled | runtime/internal-malloc.c:269-277 | with the global list empty and no room left, n blocks of one size take exactly as many chunks of 32 KB as they fill, each filled to the last block that fits |
| BlockReuse.BucketsDouble | runtime/internal-malloc.c:12-21 | every bucket holds blocks twice as large as the one before, and a full list 2 or 4 pages of them, as the comments there say |
| BlockReuse.HalfAListIsLeft | runtime/internal-malloc.c:410-424 | a malloc that finds its list empty leaves half of the capacity of the list, less its own block |
| BlockReuse.TheNextMallocsAreLocal | runtime/internal-malloc.c:410-424 | after it as many mallocs as half of the capacity, less one, touch nothing but the own list |
| BlockReuse.HalfAListHasRoom | runtime/internal-malloc.c:444-450 | a free that finds its list full leaves room for half of the capacity, less its own block |
| BlockReuse.TheNextFreesAreLocal | runtime/internal-malloc.c:444-450 | after it as many frees as half of the capacity, less one, touch nothing but the own list |
| BlockReuse.LastFreedComesFirst | runtime/internal-malloc.c:395-397 | a malloc returns the block of its bucket that was freed last |
| BlockReuse.SectionsMalloc | runtime/internal-malloc.c:395-424 | undisturbed, the critical sections of a malloc do what the whole call does |
| BlockReuse.SectionsFree | runtime/internal-malloc.c:426-450 | undisturbed, the critical sections of a free that ends do what the whole call does |
| ImAllocator.NothingYet | runtime/internal-malloc.c:74-81 | the initial lists and counters meet the invariant |
| ImAllocator.Allocator.constructor | runtime/internal-malloc.c:322-333 | all lists empty, every counter at its capacity, nothing carved, lock free |
| ImAllocator.Allocator.Lock | runtime/internal-malloc.c:361 | the lock is not recursive: it must be free |
| ImAllocator.Allocator.ExtendGlobalPool | runtime/internal-malloc.c:221-240 | a new chunk of 32 KB |
| ImAllocator.Allocator.GlobalImAlloc | runtime/internal-malloc.c:247-281 | from the global list if it has a block, otherwise carved, with a new chunk if needed |
| ImAllocator.Allocator.GlobalImFree | runtime/internal-malloc.c:288-306 | back to the front of the global list |
| ImAllocator.Allocator.ImAllocateBatch | runtime/internal-malloc.c:358-375 | half a list moves to the worker under the lock, which the nested free never asks for |
| ImAllocator.Allocator.ImFreeBatch | runtime/internal-malloc.c:380-393 | half a list moves back under the lock, which the nested malloc never asks for |
| ImAllocator.Allocator.CilkInternalMalloc | runtime/internal-malloc.c:398-424 | the whole new state and the block; the mutual recursion ends and the lock is left as it was |
| ImAllocator.Allocator.CilkInternalFree | runtime/internal-malloc.c:429-450 | the whole new state; the loop and the mutual recursion end and the lock is left as it was |
| ImAllocator.FreeInBatch | runtime/internal-malloc.c:362-365 | inside a batch a free finds room and starts no batch |
| ImAllocator.MallocInBatch | runtime/internal-malloc.c:384-387 | inside a batch a malloc finds a block and starts no batch |
| ImAllocator.DrainRound | runtime/internal-malloc.c:444-446 | one round of the loop makes room |
| FiberPool.AllocateBatchKeepsInv | runtime/fiber-pool.c:203-236 | after a batch into a pool sizes stay within capacities and every fiber is in one place |
| FiberPool.FreeBatchKeepsInv | runtime/fiber-pool.c:242-275 | after a batch out of a pool, with or without a parent, sizes stay within capacities and every fiber is in one place |
| FiberPool.AllocationWorksExactly | runtime/fiber-pool.c:357-363 | after the refill the pool has a fiber if and only if it had one or may hold two |
| FiberPool.DeallocationWorksExactly | runtime/fiber-pool.c:378-386 | after the batch the pool has room if and only if it had room or may hold two, and then as much as the assertion wants |
| FiberPool.AllocateBatchKeepsUse | runtime/fiber-pool.c:203-236 | no fiber comes into use or goes out of it by a batch |
| FiberPool.FreeBatchKeepsUse | runtime/fiber-pool.c:242-275 | no fiber comes into use or goes out of it by a batch out of a pool |
| FiberPool.AllocateHandsOut | runtime/fiber-pool.c:357-372 | a worker gets a fiber that nobody uses, and nobody else's fiber changes hands |
| FiberPool.DeallocateTakesBack | runtime/fiber-pool.c:378-395 | a fiber in use goes to the pool of the worker that frees it, and nobody else's fiber changes hands |
| FiberPool.DestroyKeepsInv | runtime/fiber-pool.c:333-351 | destroying the pools one by one keeps the invariant and leaves them empty |
| FiberPool.DestroyReturnsAll | runtime/fiber-pool.c:301-306 | when all pools are destroyed the global pool is empty, so the assertion holds, and every fiber is returned or in use |
| FiberPool.CallKeepsInv | runtime/fiber-pool.c:357-395 | every allocation and deallocation keeps the invariant |
| FiberPool.RunKeepsInv | runtime/fiber-pool.c:203-395 | over any run of them by any workers, with pools that may hold two, every fiber is in exactly one place and no array is exceeded |
| FiberPool.RunFromTheStart | runtime/fiber-pool.c:312-323 | the pools as the workers initialise them, each with a batch of half its capacity, meet the invariant, and so does every run from there |
| FiberSections.BegunAsAsked | runtime/fiber-pool.c:357-396 | whatever others do first, a call comes to its first section as it was begun |
| FiberSections.TraceKeepsGood | runtime/fiber-pool.c:312-396 | the invariant of the pools holds in every state of every run in which the sections of the calls of any number of workers interleave, from pools as they are initialised |
| FiberSections.CanGoOn | runtime/fiber-pool.c:355-396 | no assertion of a call can fail, whatever sections came in between |
| FiberSections.SectionsHandOver | runtime/fiber-pool.c:355-396 | however its sections are interrupted, an allocation ends with a fiber that nobody used, and a deallocation takes its fiber from use; no other fiber changes hands |
| FiberSections.EndsInTwoSections | runtime/fiber-pool.c:355-396 | every call ends with its first or its second section |
| FiberReuse.AllocateBatchIs | runtime/fiber-pool.c:203-236 | a batch takes what the global pool has, from its top, and only what that lacks from the system |
| FiberReuse.FreeBatchIs | runtime/fiber-pool.c:242-275 | a batch gives the global pool what that has room for, the top first, and only the rest to the system |
| FiberReuse.HalfAPoolIsLeft | runtime/fiber-pool.c:357-373 | after a refill the pool holds half of its capacity, and one less once the fiber is handed out |
| FiberReuse.TheNextAllocationsAreLocal | runtime/fiber-pool.c:357-373 | after an allocation that found the pool empty as many more as half of its capacity, less one, touch neither the global pool nor the system |
| FiberReuse.HalfAPoolHasRoom | runtime/fiber-pool.c:378-396 | a deallocation that finds the pool full leaves room for half of its capacity, less its own fiber |
| FiberReuse.TheNextDeallocationsAreLocal | runtime/fiber-pool.c:378-396 | after it as many more as half of the capacity, less one, touch neither the global pool nor the system |
| FiberReuse.LastInFirstOut | runtime/fiber-pool.c:363 | an allocation returns the fiber that was given back last |
| FiberReuse.CapacitiesAreFixed | runtime/fiber-pool.c:283-323 | over runs from the start the global pool may hold ten times as many fibers as that of a worker, and no array is ever enlarged |
| FiberReuse.SectionsAllocate | runtime/fiber-pool.c:357-373 | undisturbed, the critical sections of an allocation do what the whole call does |
| FiberReuse.SectionsDeallocate | runtime/fiber-pool.c:378-396 | undisturbed, the critical sections of a deallocation do what the whole call does |
| FiberPools.Pool.constructor | runtime/fiber-pool.c:97-114 | an empty pool |
| FiberPools.Pool.IncreaseCapacity | runtime/fiber-pool.c:163-172 | the array grows to the new size if that is larger and keeps its fibers |
| FiberPools.Pools.Lock | runtime/fiber-pool.c:140-147 | the lock of the global pool, which its owner must not ask for |
| FiberPools.Pools.TransferMany | runtime/fiber-pool.c:213-215 | the loop of a batch |
| FiberPools.Pools.AllocateMany | runtime/fiber-pool.c:225-229 | the rest of a batch from the system |
| FiberPools.Pools.FreeMany | runtime/fiber-pool.c:268-273 | the rest of a batch to the system |
| FiberPools.Pools.FillBatch | runtime/fiber-pool.c:208-230 | what the parent has, and the rest from the system |
| FiberPools.Pools.AllocateBatch | runtime/fiber-pool.c:203-236 | the whole new state after a batch into a pool |
| FiberPools.Pools.FreeBatch | runtime/fiber-pool.c:242-275 | the whole new state after a batch out of a pool: as many as the parent has room for, the rest to the system |
| FiberPools.Pools.AllocateFromPool | runtime/fiber-pool.c:357-372 | the whole new state and the fiber |
| FiberPools.Pools.DeallocateToPool | runtime/fiber-pool.c:378-395 | the whole new state, with and without a fiber to return |
| FiberPools.Pools.DestroyWorker | runtime/fiber-pool.c:333-351 | the pool of a worker is emptied, and that of worker 0 takes the global one with it |
| FiberPools.Pools.DestroyAll | runtime/init.c:646-659 | all pools, worker by worker |
| PlatformScheduler.StartShares | runtime/platform_sched_DREP.c:128-186 | a start keeps the masks of running containers apart, takes cores from others only for the new one, and leaves none idle that was tried for |
| PlatformScheduler.EndShares | runtime/platform_sched_DREP.c:187-208 | an end gives every core of the container away, keeps the masks apart and takes none from anybody else |
| PlatformScheduler.GuaranteeIs | runtime/platform-scheduler.c:49-92 | closed form of the single pass: a needy container ends with its own core only, any other with what needy ones leave it |
| PlatformScheduler.GuaranteeShares | runtime/platform-scheduler.c:49-92 | the guarantee keeps the masks apart, makes every count the population of its mask and leaves no core idle that was tried for |
| PlatformScheduler.NobodyIsLeftOutExactly | runtime/platform-scheduler.c:70-91 | the pass leaves everybody a core if and only if the masks before it allow a set of containers each of whose cores are own cores of earlier ones of the set, while everybody outside of the set has a core that is the own core of none of them |
| PlatformScheduler.OnePassIsNotEnough | runtime/platform-scheduler.c:70-91 | a run of three starts on five cores, with the seed that the platform sets, after which a running container that had its turn has no core |
| PlatformScheduler.KeptIs | runtime/platform-scheduler.c:11-18 | trimming keeps exactly as many cores as are wanted, and the container's own core |
| PlatformScheduler.TrimSettles | runtime/platform-scheduler.c:4-20 | after the feedback every count is the population of its mask and at most what is wanted; nobody gains a core or loses its own |
| PlatformScheduler.AnalyzeKeepsSharing | runtime/platform_sched_kunal_adapt.c:51-70 | the new wish of every container is between 1 and nproc - 2 |
| PlatformScheduler.CallKeepsInv | runtime/platform-scheduler.c:206-231 | a start, an end or a tick, with guarantee and feedback, keeps: masks apart and within the cores, counts equal to populations and at most the wishes, wishes in 1..nproc-2 |
| PlatformScheduler.OnlyTheFeedbackReleases | runtime/platform-scheduler.c:206-231 | before the feedback no call leaves a core idle that somebody tried for |
| PlatformScheduler.NobodyAborts | runtime/platform-scheduler.c:225-230 | the aborts of the verification and of the two checks of the adaptive scheduler cannot be reached |
| PlatformScheduler.RunKeepsInv | runtime/server-support.c:313-362 | over every run of starts, ends and ticks from a state with nobody running: masks apart and within the cores, counts equal to populations and at most the wishes, wishes in 1..nproc-2 |
| Platform.Scheduler.Rand | runtime/platform_sched_DREP.c:3-6 | the generator, on 32-bit words |
| Platform.Scheduler.RandPick | runtime/platform_sched_DREP.c:8-26 | the container at the drawn place; the search does not fall off the list |
| Platform.Scheduler.EndDrep | runtime/platform_sched_DREP.c:187-208 | the loop over the cores of the ended container is the give-away, core by core |
| Platform.Scheduler.DrawCores | runtime/platform_sched_DREP.c:134-160 | the drawn cores, how many they are, and the idle ones |
| Platform.Scheduler.GiveIdle | runtime/platform_sched_DREP.c:161-168 | the lowest idle cores, as many as were drawn |
| Platform.Scheduler.GiveDrawn | runtime/platform_sched_DREP.c:169-183 | for the rest the lowest drawn cores, which the others lose |
| Platform.Scheduler.StartDrep | runtime/platform_sched_DREP.c:128-186 | the loops are the start, with and without others running |
| Platform.Scheduler.RecountAll | runtime/platform-scheduler.c:56-68 | all counts |
| Platform.Scheduler.InvariantGuarantee | runtime/platform-scheduler.c:49-92 | the whole guarantee |
| Platform.Scheduler.AllotedFeedback | runtime/platform-scheduler.c:4-20 | every container is trimmed to what it wants |
| Platform.Scheduler.VerifyScheduling | runtime/platform-scheduler.c:38-47 | -1 if somebody tries for more than it wants |
| Platform.Scheduler.AdaptiveScheduler | runtime/platform_sched_kunal_adapt.c:101-111 | all new wishes |
| Platform.Scheduler.ActivateContainer | runtime/container.c:4-14 | appended to the list, which its counter follows |
| Platform.Scheduler.DeactivateContainer | runtime/container.c:16-27 | taken out of the list, which its counter follows |
| Platform.Scheduler.Settle | runtime/platform-scheduler.c:221-230 | guarantee, feedback and a verification that passes |
| Platform.Scheduler.NewProgram | runtime/server-support.c:343-346 | the container is on the list before its first cores are drawn |
| Platform.Scheduler.ExitProgram | runtime/server-support.c:325-328 | the container is off the list before its cores are given away, if anybody is left |
| Platform.Scheduler.Timed | runtime/server-support.c:96-98 | new wishes, then guarantee and feedback, if anybody runs |
| CorePlacement.ReservedIs | runtime/platform-scheduler.c:108-115 | everybody's own core is reserved, and these are different cores |
| CorePlacement.PlaceOneIs | runtime/platform-scheduler.c:120-143 | a container's turn gives it as many free cores as it still wants or as there are, its former ones first |
| CorePlacement.EverybodyHasItsOwnCore | runtime/platform-scheduler.c:160-180 | every container's mask has its own core, so the abort for none cannot be reached, and no core is in two masks |
| CorePlacement.EverybodyGetsItsNumber | runtime/platform-scheduler.c:94-180 | if all counts are at least 1 and sum to at most nproc - 2, every mask has exactly its count |
| CorePlacement.PlacingAgainMovesNothing | runtime/platform-scheduler.c:122-132 | placing again with the counts reset and the numbers unchanged moves no core |
| CorePlacement.FairPlacementIsFixed | runtime/platform-scheduler.c:94-180 | the masks that a placement leaves meet what the lemma about placing again asks for |
| CorePlacement.SecondPlacementMovesNothingExactly | runtime/platform-scheduler.c:108-115 | placing a second time without the guarantee, which resets the counts, leaves a container its own core only, so it moves nothing of it if and only if it may have one core |
| CorePlacement.SettledIsFair | runtime/platform-scheduler.c:94-180 | in every reachable state the counts sum to at most nproc - 2, so, if nobody was left out, the placement gives everybody its number |
| CorePlacer.Placer.Reserve | runtime/platform-scheduler.c:108-115 | the own cores on the map, counted once for each container |
| CorePlacer.Placer.TakeFree | runtime/platform-scheduler.c:124-143 | a loop over the cores takes the lowest free ones, as many as are still wanted |
| CorePlacer.Placer.Place | runtime/platform-scheduler.c:120-143 | one container's turn |
| CorePlacer.Placer.PlaceAll | runtime/platform-scheduler.c:117-148 | all turns, and what is counted |
| CorePlacer.Placer.SetMasks | runtime/platform-scheduler.c:160-180 | all masks |
| CorePlacer.Placer.DetermineScheduling | runtime/platform-scheduler.c:94-180 | the whole placement: map, masks and counts, with its abort unreachable |
| CoreShares.WishesFollowUse | runtime/platform_sched_kunal_adapt.c:46-66 | a wish is halved, to 1 at least, if the cores were not used well; doubled, to nproc - 2 at most, if they were and all that was wanted was had; and else left alone |
| CoreShares.CallsChange | runtime/server-support.c:313-362 | only a tick changes wishes, and only a start or an end changes the list, by the one container |
| CoreShares.DrawnIs | runtime/platform_sched_DREP.c:140-145 | a core is drawn for a new container if and only if its own draw is a multiple of the number of containers |
| CoreShares.StartTakes | runtime/platform_sched_DREP.c:140-183 | a new container gets as many cores as were drawn: the lowest idle ones, and the lowest drawn ones only for the rest, which are all that the others lose |
| CoreShares.TheFirstGetsAll | runtime/platform_sched_DREP.c:133-169 | a container that starts alone gets every core |
| CoreShares.EveryPlaceIsDrawnExactly | runtime/platform_sched_DREP.c:3-12 | for any number of places some state of the generator draws a place if and only if it is below 65536 |
| CoreShares.EverybodyIsPicked | runtime/platform_sched_DREP.c:8-26 | whichever container runs, at a place below 65536, some state of the generator picks it |
| CoreShares.EndGives | runtime/platform_sched_DREP.c:188-204 | each core of the container that has ended goes to the one at the place that the draw for this core names, and nobody gets or loses anything else |
| CoreShares.TheHighestAreKept | runtime/platform-scheduler.c:10-16 | the feedback takes the lowest cores away, but never the own one |
| CoreShares.FormerCoresFirst | runtime/platform-scheduler.c:126-146 | in its turn a container gets cores that it had before others, and lower ones before higher ones |
| Cilksort.Med3 | bench/cilksort.c:100-125 | the result is one of the three, and at least two of them are at most it and at least two at least it |
| Cilksort.ScanDown | bench/cilksort.c:142-143 | the scan from the right stops inside the range at an element not above the pivot, having passed only greater ones |
| Cilksort.ScanUp | bench/cilksort.c:145-146 | the scan from the left stops inside the range at an element not below the pivot, having passed only smaller ones |
| Cilksort.SeqPart | bench/cilksort.c:132-167 | the scans stay in bounds, the result is in [low, high), the range is rearranged, and the pivot, which bounds both sides, is the median of the first, the last and the middle element |
| Cilksort.Insert | bench/cilksort.c:183-186 | one pass moves an element down past exactly those greater than it |
| Cilksort.InsertionSort | bench/cilksort.c:177-188 | for every range the result is a sorted rearrangement of it and nothing else changes |
| Cilksort.QuickRound | bench/cilksort.c:193-204 | partitioning and sorting the left part extends the sorted part, which stays below the rest |
| Cilksort.SeqQuick | bench/cilksort.c:193-204 | for every size and content the range becomes a sorted rearrangement of itself |
| Cilksort.MergeKeepsElements | bench/cilksort.c:206-278 | the merge of two sequences has exactly their elements |
| Cilksort.MergeIsSorted | bench/cilksort.c:206-278 | the merge of two sorted sequences is sorted |
| Cilksort.SortedIsUnique | bench/cilksort.c:206-278 | a collection of elements has one sorted order only |
| Cilksort.MergeCommutes | bench/cilksort.c:334-337 | merging may exchange its two ranges |
| Cilksort.MergeSplits | bench/cilksort.c:356-368 | splitting both ranges at a value splits their merge around it |
| Cilksort.MemCpy | bench/cilksort.c:273-277 | the elements are copied to their place and nothing else changes |
| Cilksort.MergeFast | bench/cilksort.c:237-253 | the loop that loads ahead writes the first elements of the merge and stays inside both ranges |
| Cilksort.MergeSlow | bench/cilksort.c:254-272 | the second loop goes on until one range is empty |
| Cilksort.SeqMerge | bench/cilksort.c:206-278 | for any two ranges, empty ones too, their merge is written to the destination and nothing else |
| Cilksort.SplitSplits | bench/cilksort.c:288-308 | everything up to the returned place is at most the value, everything after it at least the value |
| Cilksort.SplitMeetsComment | bench/cilksort.c:290-293 | the place is the one its comment describes if and only if the value does not occur or is the first element |
| Cilksort.SplitMissesOnTies | bench/cilksort.c:298 | an example where a tie makes the comment wrong |
| Cilksort.BinSplit | bench/cilksort.c:288-308 | the loop returns the place of the split function for the range |
| Cilksort.Tiled | bench/cilksort.c:364-367 | the two halves and the splitting element tile the destination exactly |
| Cilksort.ParallelMerge | bench/cilksort.c:356-368 | the merges of the two pairs of parts around the splitting element are the merge of the whole ranges |
| Cilksort.CilkMerge | bench/cilksort.c:310-371 | merges two sorted ranges, not both empty, into the destination and changes nothing else |
| Cilksort.FourMerged | bench/cilksort.c:407-411 | merging the merges of the four sorted quarters gives all elements in order |
| Cilksort.SortFour | bench/cilksort.c:392-405 | the four calls sort the four parts, the last of which takes the remainder |
| Cilksort.MergePairs | bench/cilksort.c:407-409 | the two parallel merges fill the two halves of the scratch space |
| Cilksort.MergeFour | bench/cilksort.c:407-411 | the three merges turn four sorted parts into a sorted rearrangement of the whole |
| Cilksort.SortBig | bench/cilksort.c:392-413 | the parallel case sorts |
| Cilksort.CilkSort | bench/cilksort.c:373-414 | for every size and content the array becomes a sorted rearrangement of itself, and of the scratch space only its own part changes |
| Cilksort.SplitIs | bench/cilksort.c:288-308 | the place is the one before the first element that is not below the value, but the first place if the value stands there |
| Cilksort.SpawnedSortsCommute | bench/cilksort.c:401-405 | sorts of different parts leave the same array in either order |
| Cilksort.SpawnedMergesCommute | bench/cilksort.c:366-369 | merges into different parts leave the same destination in either order |
| Matrices.DotSplits | bench/strassen.c:122-135 | a sum of products splits at any term |
| Matrices.DotSame | bench/strassen.c:122-135 | matrices that agree on a row and a column have the same sum of products |
| Lu.Daxmy | bench/lu.c:166-172 | y becomes y - a x, element by element, and nothing else changes |
| Lu.BlockSchur | bench/lu.c:224-237 | the block becomes M - V W |
| Lu.BlockLowerSolve | bench/lu.c:194-206 | the block becomes the M' with L M' = M, the diagonal of L counting as 1 |
| Lu.BlockUpperSolve | bench/lu.c:208-222 | the block becomes the M' with M' U = M |
| Lu.Schur | bench/lu.c:243-289 | for every power of two of blocks M becomes M - V W |
| Lu.LowerSolve | bench/lu.c:314-340 | for every power of two of blocks M becomes the M' with L M' = M |
| Lu.UpperSolve | bench/lu.c:368-394 | for every power of two of blocks M becomes the M' with M' U = M |
| Lu.PartialStep | bench/lu.c:178-188 | eliminating a column turns what stands in a row into what is left after one more term of the product |
| Lu.BlockLu | bench/lu.c:178-188 | a block that has factors is replaced by them |
| Lu.LowerFindsU | bench/lu.c:314-341 | forward substitution has one solution, the part of U above the Schur complement |
| Lu.UpperFindsL | bench/lu.c:368-395 | back substitution has one solution, the part of L to the left of the Schur complement |
| Lu.SchurIsFactored | bench/lu.c:400-434 | the Schur complement has the rest of the factors |
| Lu.LuFactor | bench/lu.c:400-434 | a submatrix that has factors is replaced by them, whatever its power of two of blocks, and nothing else changes |
| Lu.FactorsAreFactors | bench/lu.c:124-147 | without a zero pivot Gaussian elimination gives factors whose product is the matrix |
| Lu.FactorsMeanPivots | bench/lu.c:124-147 | a matrix with factors without a zero pivot is never eliminated with one |
| Lu.PivotsExactly | bench/lu.c:124-147 | elimination meets no zero pivot if and only if the matrix has factors without a zero pivot |
| Lu.LuDecompose | bench/lu.c:400-434 | if elimination meets no zero pivot, a unit lower and an upper triangle are left in place whose product is the matrix that was there |
| Lu.SpawnedCallsCommute | bench/lu.c:273-283 | any two of the updates and triangular solves that do not read what the other writes leave the same matrix in either order |
| Strassen.MatrixMul | bench/strassen.c:122-135 | the triple loop of the specification computes the sums of products |
| Strassen.FastNaive | bench/strassen.c:162-223 | for every size divisible by 8 and all row widths C becomes A B |
| Strassen.FastAdditive | bench/strassen.c:249-306 | for every such size C becomes C + A B |
| Strassen.KernelsFitExactly | bench/strassen.c:851-853 | every kernel call of the recursion gets a size it can unroll if and only if the size is 16 times a power of two, which is what main checks |
| Strassen.FortyEightDoesNotFit | bench/strassen.c:319 | divisibility by 16, which the comment asks for, is not enough |
| Strassen.MultiplyByDivideAndConquer | bench/strassen.c:335-430 | C becomes A B, or C + A B in additive mode |
| Strassen.Sums | bench/strassen.c:539-577 | the loop fills S1 to S8 with them |
| Strassen.Winograd12 | bench/strassen.c:626-658 | S4 B22 + M5 + T1 sums to the upper right quadrant of the product |
| Strassen.Winograd22 | bench/strassen.c:626-658 | M5 + T2 sums to the lower right quadrant |
| Strassen.Winograd21 | bench/strassen.c:626-658 | T2 - A22 S8 sums to the lower left quadrant |
| Strassen.Combine | bench/strassen.c:626-666 | one column of the last loop combines the seven products at four places |
| Strassen.CombineAll | bench/strassen.c:620-672 | the last loop, four columns at a time, combines them everywhere |
| Strassen.StrassenIsProduct | bench/strassen.c:455-676 | the seven products and the last loop make the product |
| Strassen.OptimizedStrassenMultiply | bench/strassen.c:455-676 | for every size of 16 times a power of two and all row widths C becomes A B, as in the specification |
| Strassen.SevenProducts | bench/strassen.c:499-675 | Strassen's case with its seven products does so |
| Strassen.ProductIsUnique | bench/strassen.c:746-771 | two multiplications that meet the contract leave the same matrix, so Strassen's result is that of the triple loop |
| Strassen.SpawnedProductsCommute | bench/strassen.c:580-607 | products into different blocks leave the same matrix in either order |
| Fft.PowerAdds | bench/fft.c:60-91 | the roots of the table multiply as their exponents add, modulo n |
| Fft.SumSplits | bench/fft.c:3212-3230 | a transform sum splits at any term |
| Fft.RowsAreColumns | bench/fft.c:169-199 | summing a stretch by rows and by columns is the same |
| Fft.TwiddlesAreColumns | bench/fft.c:169-199 | the small transforms times their twiddle factors sum up to the columns of the input |
| Fft.CooleyTukey | bench/fft.c:3084-3167 | r transforms of size m, multiplied by twiddle factors and added up, are the transform of size r m |
| Fft.TwiddleSum | bench/fft.c:181-192 | the inner loop computes the twiddle sum, for up to 2^30 roots; its index, which wraps only when it exceeds nW, stays in 0..nW |
| Fft.TwiddleGen1 | bench/fft.c:169-199 | one column of twiddle sums is written and nothing else |
| Fft.TwiddleGen | bench/fft.c:201-219 | the parallel recursion writes the columns of its range |
| Fft.Unshuffle | bench/fft.c:128-167 | the groups of its range become columns, for odd and even r |
| Fft.Factor | bench/fft.c:93-126 | the result divides n, is n itself or splits it further; for odd n it is the least divisor above 1, for even n 8 for six powers of two and else the greatest of 16, 8, 4 and 2 that divides n |
| Fft.ManyFactors | bench/fft.c:3174 | thirty-one factors of at least 2 exceed every int, so 40 places are enough |
| Fft.Factors | bench/fft.c:3188-3192 | the list multiplies up to n, factor by factor, for every int, even or odd |
| Fft.TransformDone | bench/fft.c:3152-3164 | the twiddle sums over the small transforms are the transform |
| Fft.FftAux | bench/fft.c:3084-3167 | for every odd size out holds the transform of in, given a factor list and a table of at most 2^30 roots; outside of the stretch nothing changes |
| Fft.CilkFft | bench/fft.c:3172-3201 | for every odd n up to 2^30, out[p] is the sum of in[t] W[p t mod n], as in the definition that the test uses (lines 3204-3231) |
| Fft.TwiddleSumsFitExactly | bench/fft.c:181-192 | the sum of l0 and l1 fits an int before it wraps, for all turns of the loops, if and only if there are at most 2^30 roots |
| Fft.SpawnedTwiddlesCommute | bench/fft.c:212-214 | the two halves of the twiddle columns leave the same array in either order |
| Fft.SpawnedShufflesCommute | bench/fft.c:160-162 | the two halves of the shuffle leave the same array in either order |
| Fft.SpawnedSegmentsCommute | bench/fft.c:3141-3143 | transforms of different segments leave the same result in either order |
| ZOrder.SpreadIsGroups | bench/matmul_4_way_z.c:48-51 | the four rounds of shifts and masks move every bit of a 16-bit number to twice its place |
| ZOrder.InterleaveBits | bench/matmul_4_way_z.c:41-61 | the last bits of row and column end up behind the interleaving of their halves |
| ZOrder.InterleaveIsMorton | bench/matmul_4_way_z.c:41-61 | on words the rounds compute the Morton number |
| ZOrder.ZConvertIsMorton | bench/matmul_4_way_z.c:41-61 | for every row and column below 65536 z_convert gives the Morton number |
| ZOrder.BeyondTheBound | bench/matmul_4_way_z.c:44 | row 65536 gets the places of row 256, so the bound is needed |
| ZMatmul.LayoutFits | bench/matmul_4_way_z.c:64-68 | the layout stays below n * n |
| ZMatmul.LayoutIsInjective | bench/matmul_4_way_z.c:64-68 | row and column can be read off the place |
| ZMatmul.LayoutIsOnto | bench/matmul_4_way_z.c:64-68 | every place below n * n belongs to a row and a column |
| ZMatmul.MortonQuadrant | bench/matmul_4_way_z.c:41-61 | a leading bit of row and column adds whole quadrants to the Morton number |
| ZMatmul.CellOfQuadrant | bench/matmul_4_way_z.c:234-249 | the layout of a quadrant is the whole layout, shifted by the quadrants before it |
| ZMatmul.BlockConvertIsLayout | bench/matmul_4_way_z.c:63-68 | block_convert computes the recursive layout of quadrants down to blocks stored row by row |
| ZMatmul.BlockConvertIsBijective | bench/matmul_4_way_z.c:63-68 | for every n = 2^p 2^k whose n * n places an int can count, block_convert maps the n by n cells one to one onto 0..n*n-1 |
| ZMatmul.EntryOfQuadrant | bench/matmul_4_way_z.c:234-249 | an entry of a quadrant is an entry of the matrix that starts at the quadrant's corner |
| ZMatmul.DotOfQuadrants | bench/matmul_4_way_z.c:252-261 | half of the terms of a row times a column is a product of two quadrants |
| ZMatmul.MatMulBase | bench/matmul_4_way_z.c:220-232 | the base case adds the product of two blocks, each stored row by row |
| ZMatmul.Corners | bench/matmul_4_way_z.c:236-249 | the four offsets are 0, 1, 2 and 3 times the size of a quadrant |
| ZMatmul.MatMulRound | bench/matmul_4_way_z.c:252-256 | one round of four recursive products |
| ZMatmul.MatMulPar | bench/matmul_4_way_z.c:217-264 | for every such n C grows by exactly A B, cell by cell, and nothing else of C changes |
| ZMatmul.SpawnedProductsCommute | bench/matmul_4_way_z.c:252-262 | products into different quadrants leave the same matrix in either order |
| ZMatmul.PlacesFitExactly | bench/matmul_4_way_z.c:63-68 | for every n = 2^p 2^k the int that block_convert returns holds every place if and only if n * n is at most 2^31; beyond 16 bits a row or column no longer enters z_convert whole, and some place still needs more than an int |

## Left out

- Memory order weaker than sequential consistency: the fences of runtime/membar.h are taken to give it.
- Wake-ups that get lost, retry limits, `usleep` and every other question of progress; the wait in runtime/elastic.c:48-52
  has no loop around it, so only safety is stated.
- Switching between the last worker and the invariant worker at exit, blocking of containers, and the sleep inside
  `container_block`.
- `setjmp` and `longjmp`, stack pointers, floating-point control words and `mmap`: a jump is a change of program counter.
- Mugging inside `The`: there a worker keeps its deque; `Elastic` moves whole deques and `ElasticCore.Mugging` their
  fields, and the deque limit, which the code does not exchange, stays with the worker.
- A sleep signal that hits a worker in the middle of a mugging: a signal is taken to concern one deque.
- The second unlock of the deque at runtime/cilk-scheduler.c:1257, after the one at line 1229: modelled as one.
- TheWorker.Worker.Steal: states a whole steal without interference only; with interference it is the steps of `The`.
- TheWorker.Worker.NextClosure: states the setting up of a closure without interference only.
- Spawned calls of the benchmarks are made one after the other. Their order is proved not to matter, as none reads what
  the others write; runs in which the steps inside of them alternate are not modelled.
- Rounding: LU, Strassen and the Fourier transform work on exact reals.
- Sizes, indices and matrix elements are unbounded, but for the words of `z_convert`, the places of `block_convert`, the
  generator of random numbers and the sizes and indices of the Fourier transform. So the truncation of
  `QuadrantSizeInBytes` to an `unsigned`, from matrices of 65536 rows on (bench/strassen.c:460), is not modelled.
- Fft.CilkFft: requires an odd size of at most 2^30 and a table of roots; even sizes take machine-generated kernels with
  rounded constants, the sines of `compute_w_coefficients` are not exact, and a larger odd size would let the index into
  the table overflow, as `Fft.TwiddleSumsFitExactly` shows.
- Fft.FftAux: requires the same.
- The storage of LU in blocks, for which the code computes addresses: blocks are places of one matrix here.
- Blocks of 2048 bytes on their way back to a full list, which never get there; sizes above go to the system.
- Cilksort.CilkMerge: requires one of its ranges not to be empty, as otherwise the copy is asked for a negative size.
- ImAllocator.Allocator.CilkInternalFree: requires the case in which it ends, which `InternalMalloc.CanFreeExactly` shows
  to be a test of bucket and list.
- The links of free lists, which are sequences here; the teardown of chunks and failures of the system's `malloc`.
- The counters of a worker that nobody initialises are taken to start at 0.
- InternalMalloc.RunKeepsInv: states runs of whole calls, as does FiberPool.RunKeepsInv; runs of critical sections are
  those of `MallocSections` and `FiberSections`.
- FiberPool.RunKeepsInv: states runs of whole calls.
- FiberPool.RunFromTheStart: states runs of whole calls.
- Accesses inside a critical section, which no other worker sees, and the moment at which a call is charged to its
  descriptor: in `MallocSections` that is when the block changes hands, in the code when the call begins.
- The links of the running list of containers, which is a sequence here.
- Periodic containers, requests from a container's own buffer (runtime/server-support.c:354-359), the reading of requests
  and signal handlers.
- The measurement of how well cores are used, which comes in as a report.
- platform_sched_CFS.c and platform_sched_task_compress_par2.c, which nothing calls, and the loop that sends workers to
  sleep and wakes them as the masks change.
- bk/bk.c, handcomp_test, cholesky, heat, fib, nqueens and the other benchmarks: older copies, inexact arithmetic, or
  easier than those here.
