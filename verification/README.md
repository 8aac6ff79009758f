# Verified models of six operating-system exercises

This project models, in Dafny, the stateful parts of the repository `pieces_OS`, and proves what they are for.

| part | files | what is proved |
|---|---|---|
| producers and consumers (matrix/MPMC) | `Semaphore`, `RingBuffer`, `ProducerConsumer`, `CounterSystem`, `SemaphoreSystem` | a hand-built semaphore is a counter that loses no wakeup; over any schedule the buffer is a FIFO, nothing deadlocks, everything ends with the right totals and items |
| slab allocator (slab) | `SlabModel`, `SlabAllocator`, `DoublyLinked` | the linked lists refine an allocator on values; memory handed out never overlaps, initialisation, failure and freeing are characterised exactly |
| elevators (elevator/improved) | `Riders`, `ElevatorLists`, `ElevatorSystem`, `ElevatorTurn`, `ElevatorEnd`, `DoublyLinked` | list surgery is an exact partition; over any schedule nobody is lost, rides make no detour, sweeps are bounded; exactly when a simulation can still end |
| shared-memory ring (IPC/posixshm) | `SharedRing` | a wraparound-safe channel for any number of messages, and for which sizes |
| parallel matrix product (matrix/PMM) | `MatrixMultiply` | every schedule of workers computes what the triple loop computes, the product as two laws determine it |
| command-line parser (shell) | `ShellParser` | every line is the writing of a pipeline and is parsed back to it; the growing arrays are never left |

`Sums`, `Unsigned` and `Options` hold the sums over threads, the 32-bit arithmetic and the optional values that several
parts use.

Each part has the same shape. The operations are functions on values, with the branches, constants and error
results of the C code. Where the C code changes objects in place, a class with the same fields has methods that
are proved to compute those functions. Concurrent programs are step systems: one step for each section under a
lock and for each unprotected access to shared data, taken in any order. The main results speak of every run.

Three results are about what the programs do not do:

- An elevator simulation can hang, in two ways. `timesup` is set only by an elevator that leaves its loop, so if all
  elevators sleep in `cv_wait` when the time is up, nobody ever leaves: `ElevatorEnd.CanGetStuck` gives such a run
  for every number of elevators and floors. And because `timesup` is set without the queue's mutex, the signal that
  follows can come between another elevator's test of the flag and its falling asleep, and is lost:
  `ElevatorEnd.CanLoseWakeup`, for any two elevators or more. So no choice of parameters avoids the hang.
  `ElevatorEnd.CanEndIff` gives the exact condition on a state, `Alive`, under which the simulation can still end: the
  maker will add somebody, or some elevator awake gets back to its last signal without waiting for people, or the
  time is up and nobody sleeps. A state that is not alive stays so, and a state that cannot go on is an end if and
  only if it is alive.
- A ring whose size does not divide 2^32 hands out a later message as the first when the counters start shortly
  before their wrap: `SharedRing.WrapBreaksFifo`. `SharedRing.AlwaysFifoIff`: the channel is a FIFO in all runs if
  and only if the size divides 2^32. The sizes in use, 4096 and 512, do.
- The number of bytes that `init_slab_allocator` asks malloc for can wrap around to a small one, in which not even
  the headers fit: `SlabModel.RequestCanWrap`. `SlabModel.SlabsInsideRequestIff` gives the exact condition under
  which the slabs lie inside what was asked for.

The comments of the code sometimes say something else than the code does; the model follows the code.
`letin_people` is documented to return a number of people and returns 1 or -1. `PersonQueue_pop_people` returns
its list in reverse order. `rb_init` is documented to make the buffer empty, and does, by copying `tail` rather
than by zeroing either counter.

## Model

| member | source | states |
|---|---|---|
| Semaphores.EnterPRefines | matrix/MPMC/sem.c:36-48 | a P that gets through takes exactly one credit of the abstract counter; one that has to wait takes none and sleeps; the invariant waiters − wakeups = max(0, −value) is kept |
| Semaphores.ResumePRefines | matrix/MPMC/sem.c:42-45 | a woken thread that leaves the wait loop takes exactly one credit and stops being a waiter; one that waits again changes nothing |
| Semaphores.ApplyVRefines | matrix/MPMC/sem.c:55-65 | V adds exactly one credit, whichever sleepers the signal wakes, no waiter is lost, and exactly those sleepers are awake |
| Semaphores.WakeSpuriouslyRefines | matrix/MPMC/sem.c:42-45 | a spurious wakeup changes neither credits nor waiters |
| Semaphores.NoLostWakeup | matrix/MPMC/sem.c:36-65 | while credits and waiters coexist some waiter is awake and its next test of `wakeups` lets it through, even after spurious wakeups |
| Semaphores.HistoryRefinesCounter | matrix/MPMC/sem.c:21-65 | over every history of P, V, wakeups and spurious wakeups the credits are the initial value plus completed Vs minus completed Ps, which never goes negative |
| Semaphores.SemaphoreObject.Enter | matrix/MPMC/sem.c:38-43 | the object's fields change as the first turn of P, and the caller is told whether it must wait |
| Semaphores.SemaphoreObject.Resume | matrix/MPMC/sem.c:44-47 | the object's fields change as one further turn of the wait loop |
| Semaphores.SemaphoreObject.Release | matrix/MPMC/sem.c:57-65 | the object's fields change as V |
| RingBuffer.RBuffer.PushLocked | matrix/MPMC/rbuffer.c:70-86 | the critical section of push, in place, is the function `Push` whose FIFO meaning `CounterSystem` proves |
| RingBuffer.RBuffer.PopLocked | matrix/MPMC/rbuffer.c:109-130 | the critical section of pop, in place, is the function `Pop` |
| RingBuffer.RBuffer.IsEmpty | matrix/MPMC/rbuffer.c:38-43 | the test of the counters' difference means that they are equal |
| RingBuffer.RBuffer.IsFull | matrix/MPMC/rbuffer.c:49-54 | the test means that `head` is `length` further on than `tail`, with wraparound |
| CounterSystem.StepInv | matrix/MPMC/rbuffer.c:65-132 | every step of every thread keeps the credit accounting of the three semaphores, the quotas, the totals and the FIFO relation, including the extra `V(items)` after the last item |
| CounterSystem.MutualExclusion | matrix/MPMC/rbuffer.c:67-86 | two threads are never in critical sections together |
| CounterSystem.PushFindsRoom | matrix/MPMC/rbuffer.c:79-81 | a pusher in its critical section finds a free slot, and the slot it writes is not one of an unread item |
| CounterSystem.PopFindsItem | matrix/MPMC/rbuffer.c:110-119 | a popper in its critical section finds an item, or leaves exactly because all items have been consumed |
| CounterSystem.FifoOrder | matrix/MPMC/rbuffer.c:65-132 | items popped so far followed by the window from tail to head are the items pushed so far, and the window is never longer than the buffer |
| CounterSystem.DeadlockFree | matrix/MPMC/rbuffer.c:104-132 | a state in which no thread can step is one in which all have finished: the one extra `V(items)` is handed from consumer to consumer |
| CounterSystem.FinishedTotals | matrix/MPMC/main.c:149-189 | when all have finished, `produced` = `consumed` = num_all, everything pushed was popped in order, and the semaphores are back at their initial values |
| CounterSystem.StepLowersMeasure | matrix/MPMC/main.c:154-185 | every step of every schedule lowers a natural measure |
| CounterSystem.StepCountsCalls | matrix/MPMC/main.c:154-185 | each entry into push or pop uses up one of the num_all + P, respectively num_all + C, calls left |
| CounterSystem.EveryRunCountsItems | matrix/MPMC/main.c:149-165 | in every state of every run an item `v` was put into the buffer once for every producer that has put in more than `v`, and nothing else was: each producer sends 0, 1, 2, … |
| CounterSystem.EveryRunEndsWell | matrix/MPMC/main.c:149-189 | from the initial state every run has at most 6(P + C) + 11·num_all steps; where it cannot go on, all threads have finished, the totals are right, item `v` was delivered once for every producer that counted past it, and exactly num_all + P pushes and num_all + C pops were called |
| SemaphoreSystem.MoveSimulates | matrix/MPMC/rbuffer.c:65-132 | with the semaphores of sem.c each move is one step of the counter system by the same thread, or is invisible there |
| SemaphoreSystem.Progress | matrix/MPMC/rbuffer.c:65-132 | an unfinished system with the real semaphores has a move that is not a spurious wakeup |
| SemaphoreSystem.MoveMeasure | matrix/MPMC/rbuffer.c:65-132 | every move lowers a measure, except that a spurious wakeup may raise it by one |
| SemaphoreSystem.RunSimulates | matrix/MPMC/rbuffer.c:65-132 | every run with the real semaphores is a run of the counter system with the same buffer, items and totals |
| SemaphoreSystem.EveryRunEndsWell | matrix/MPMC/main.c:192-248 | whatever the schedule, the sleepers woken and the spurious wakeups: boundedly many moves beyond two per spurious wakeup, and where no thread can move all items were delivered once, in order, with both totals num_all; at any time the items put in are the numbers that the producers have counted, and those taken out are the first of them |
| DoublyLinked.Detach | elevator/improved/people.c:176-195 | joining the neighbours of a node leaves a properly linked list without the node, and the node without links |
| DoublyLinked.DropLinks | slab/slab_allocator.c:367-378 | if the neighbours of node k point past it and all other links stand, the rest is a linked list |
| DoublyLinked.AppendLinks | slab/slab_allocator.c:300-309 | setting the two links at the end of a list makes the longer list linked |
| DoublyLinked.PrependLinks | slab/slab_allocator.c:381-391 | setting the two links at the head of a list makes the longer list linked |
| DoublyLinked.ConcatLinks | elevator/improved/elevator.c:376-390 | setting the two links between two lists makes their concatenation linked |
| SlabAllocator.SlabClass.AddToAllocated | slab/slab_allocator.c:288-312 | the allocated list, known by its last chunk, grows by the chunk at its end; both lists of the class stay linked and disjoint |
| SlabAllocator.SlabClass.TakeChunk | slab/slab_allocator.c:266-279 | the head of the free list becomes the last of the allocated list |
| SlabAllocator.SearchBack | slab/slab_allocator.c:342-350 | the backward walk finds the last chunk with the address, or NULL when there is none |
| SlabAllocator.SlabClass.Unlink | slab/slab_allocator.c:366-378 | exactly the chunk found leaves the allocated list, whose last chunk is kept right |
| SlabAllocator.SlabClass.PushFree | slab/slab_allocator.c:381-391 | the chunk becomes the head of the free list |
| SlabAllocator.SlabClass.GiveBackChunk | slab/slab_allocator.c:366-391 | both list changes of a successful `free_mem` together are `GiveBack` on the class's value |
| SlabAllocator.LinkSlabs | slab/slab_allocator.c:79-94 | the slab loop makes a chain of exactly n slabs at consecutive slab addresses |
| SlabAllocator.ChopSlab | slab/slab_allocator.c:151-192 | the chunks of a slab are a fresh linked list of distinct nodes with the addresses `Chop`; NULL for a NULL slab or a size out of range |
| SlabAllocator.Allocator.Init | slab/slab_allocator.c:24-117 | initialisation establishes the heap invariant and builds the arena `InitialArena` out of new classes and chunks, for every block address and pool size, an empty one for pools below one slab |
| SlabAllocator.Allocator.PopSlab | slab/slab_allocator.c:124-141 | the first slab leaves the pool and `n_slabs` stays the length of the pool's chain; an empty pool gives NULL and stays |
| SlabAllocator.Allocator.RefillClass | slab/slab_allocator.c:255-265 | a class without free chunks gets those of one slab, or nothing changes when the pool is empty |
| SlabAllocator.Allocator.PopChunk | slab/slab_allocator.c:248-280 | the heap operation is `SlabModel.PopChunk` on values and keeps the heap invariant of all classes; nodes it adds to a class are new |
| SlabAllocator.Allocator.AllocMem | slab/slab_allocator.c:201-240 | the heap operation is `SlabModel.Alloc` on values and keeps the heap invariant: all lists linked both ways, no chunk on two lists, the pool count right; nodes it adds are new |
| SlabAllocator.Allocator.FreeMem | slab/slab_allocator.c:320-394 | the heap operation is `SlabModel.Free` on values, keeps the heap invariant, and leaves every class its nodes |
| SlabAllocator.Allocator.Serve | slab/slab_allocator.c:201-394 | any sequence of allocations and frees on one allocator keeps the heap invariant, ends in the arena `After`, and returns the addresses and statuses `Answers` |
| SlabAllocator.UseAllocator | slab/slab_allocator.c:24-394 | initialisation followed by any sequence of requests, on the linked structures: the heap invariant, the arena and the answers of the value model, and its invariant of lists and slabs |
| SlabAllocator.Allocator.FindHome | slab/slab_allocator.c:333-364 | the search over all classes finds the first class whose allocated list has the address, and the chunk; or neither |
| SlabModel.SizesInTable | slab/slab_allocator.c:101-106 | every size in the table is positive, a multiple of 8, at most one slab, and larger than the one before |
| SlabModel.InitialLayout | slab/slab_allocator.c:36-116 | in plain numbers: as many classes as slabs up to 41, class `i` with the chunks of slab `i` in their order, all free, the other slabs the pool, and the slabs in a row from the first multiple of 8 past 24 bytes for each class and each slab |
| SlabModel.FreshServesIff | slab/slab_allocator.c:46-51 | a fresh allocator serves a request if and only if it is positive, there is a slab, and it is at most the size of the last class, that of the table at the smaller of the number of slabs and 41 |
| SlabModel.SlabsFit | slab/slab_allocator.c:55-77 | the slabs start 8-aligned past all headers and end inside the block of the size computed, for some addresses of the block with its last byte |
| SlabModel.SlabsInsideRequestIff | slab/slab_allocator.c:55-77 | with the request as a 64-bit `size_t`, the slabs lie inside the request if and only if the sum does not wrap |
| SlabModel.RequestCanWrap | slab/slab_allocator.c:57 | a pool size whose request wraps to 222175 bytes, less than the headers alone need |
| SlabModel.ReachableInv | slab/slab_allocator.c:24-394 | after initialisation with any block and pool size and any sequence of requests: the pool is the unchopped slabs in order, and each class's two lists hold each chunk of its slabs exactly once |
| SlabModel.ChunksNeverOverlap | slab/slab_allocator.c:163-188 | the memory of two different chunks, free or live, of one class or two, never overlaps |
| SlabModel.ChunksInsideBlock | slab/slab_allocator.c:55-94 | every chunk is 8-aligned, past the class and slab headers, and inside the block of the size computed; also inside what was requested, when the request does not wrap |
| SlabModel.AllocFailsIff | slab/slab_allocator.c:201-280 | a request gives NULL if and only if it is not positive, or no class is large enough, or the smallest that is has no free chunk and the pool is empty; then nothing changes |
| SlabModel.AllocServes | slab/slab_allocator.c:201-280 | what is handed out is the first free chunk of the smallest class that is large enough, or the start of the first slab of the pool, whose other chunks become that class's free list in order; it goes to the end of the allocated list and nothing else changes |
| SlabModel.AllocIsFresh | slab/slab_allocator.c:201-280 | a successful request returns memory that is large enough, was not live and overlaps no live chunk; exactly that address becomes live |
| SlabModel.FreeSucceedsIff | slab/slab_allocator.c:320-394 | the result is 0 exactly for live addresses, which stop being live; otherwise -1 and nothing changes |
| SlabModel.FreeMovesChunk | slab/slab_allocator.c:320-394 | the address goes from its place in the allocated list, which keeps its order, to the head of the free list of the same class, and nothing else changes |
| SlabModel.FreedChunkIsReused | slab/slab_allocator.c:320-394 | the next request that the freed chunk's class serves gets that chunk |
| SlabModel.AllocThenFreeRestores | slab/slab_allocator.c:248-394 | allocating without a refill and then freeing restores every list exactly |
| SlabModel.Conservation | slab/slab_allocator.c:124-280 | pool slabs plus chopped slabs are constant, and each class's free and allocated chunks together are its slabs times the chunks per slab |
| Riders.KeptInOrder | elevator/improved/people.c:166-216 | those who stay on the list are exactly those not selected, in their order |
| Riders.RemovedInReverse | elevator/improved/people.c:193-203 | those taken off are exactly those selected, in reverse order |
| Riders.RemovalConserves | elevator/improved/people.c:166-216 | removal loses and duplicates nobody, and selects by the test only |
| Riders.BoardingSplits | elevator/improved/people.c:172-174 | of those on the floor nobody stays behind who wants to go further up, or down, and only they are taken |
| Riders.ScanFindsNearest | elevator/improved/elevator.c:170-180 | the scan ends at the first of the nearest floors, or nowhere exactly when none is nearer than the limit |
| ElevatorLists.PersonQueue.AddPerson | elevator/improved/people.c:68-90 | the person becomes the tail of a properly linked queue with the right `number`; NULL is refused with -1 |
| ElevatorLists.PersonQueue.PopPeople | elevator/improved/people.c:159-216 | exactly those at the floor who go the given way leave the queue, and nobody is left there who wants a floor further that way, the rest keep their order, the queue's head, tail, links and number are right, and the result is a properly linked list of those taken, in reverse order, with its length; when time is up nothing changes |
| ElevatorLists.Elevator.DropPeople | elevator/improved/elevator.c:255-331 | exactly those who want this floor leave the elevator, nobody aboard wants it then, the rest keep their order, `n_people` is right and the number returned is the number dropped; nothing changes when time is up |
| ElevatorLists.Elevator.LetinPeople | elevator/improved/elevator.c:342-416 | the people popped are appended to those aboard, `n_people` is right, and the next stop is the nearest destination of all aboard, or -1; the early return leaves elevator and stop alone; the nodes aboard were aboard or in the queue, those queued were queued |
| ElevatorLists.Elevator.MakeSureDirection | elevator/improved/elevator.c:161-207 | floor and direction are those of `Choose` on the waiting people, or -1 with the direction left alone when time is up |
| ElevatorTurn.ChooseTurn | elevator/improved/main.c:142-149 | `MakeSureDirection` on the queue is the elevator's step of the system at that point |
| ElevatorTurn.DropTurn | elevator/improved/main.c:155-156 | `DropPeople` on the list is the step of the system at that point, and the number it returns is the number of people that the step delivers |
| ElevatorTurn.BoardTurn | elevator/improved/main.c:160-164 | `LetinPeople` on the lists is the steps of the system at that point, two if nobody got on |
| ElevatorTurn.Turn | elevator/improved/main.c:141-166 | a whole turn of the loop on the linked lists, with no other thread between, is a number of steps of the elevator from the head of its loop to its head, and keeps both lists in order |
| ElevatorTurn.MakeTurn | elevator/improved/people.c:68-90 | `AddPerson` on the linked queue is the step of the people maker: the new person waits behind all others |
| ElevatorTurn.EmptyTurn | elevator/improved/main.c:141-166 | a turn of an empty elevator, with no other thread between, ends on the floor of the person who waits nearest; somebody gets on if and only if somebody there wants to go on in the direction in which it came, and then all of those do |
| ElevatorTurn.TwoTurnsBoard | elevator/improved/main.c:141-166 | an empty elevator left alone, with people waiting and time left, has somebody aboard after two turns at most |
| ElevatorSystem.ChooseFacts | elevator/improved/elevator.c:168-206 | an empty elevator is sent to the nearest waiting person, in a direction that leads there, or, if that person waits on its own floor, where the person wants to go |
| ElevatorSystem.ChooseNearest | elevator/improved/elevator.c:168-206 | of several people equally near the first in the queue decides where to go, and, on the elevator's own floor, in which direction |
| ElevatorSystem.NextStopFacts | elevator/improved/elevator.c:356-413 | the stop chosen while boarding is somebody's destination and nobody aboard wants an earlier one |
| ElevatorSystem.NextStopNearest | elevator/improved/elevator.c:356-413 | the stop is -1 if nobody is aboard, and otherwise the destination of somebody aboard with none nearer |
| ElevatorSystem.CarStepInv | elevator/improved/main.c:141-173 | every step of an elevator keeps: everybody aboard is on the way from origin to destination, has been carried exactly the floors covered, and nobody is carried past the destination |
| ElevatorSystem.StepInv | elevator/improved/main.c:60-174 | every step of elevators, people maker and clock, and every spurious wakeup, keeps the whole invariant |
| ElevatorSystem.StrictlyAhead | elevator/improved/elevator.c:217-246 | between stops, until time is up, everybody aboard still has to go on in the elevator's direction |
| ElevatorSystem.BoardedAtOrigin | elevator/improved/elevator.c:348-350 | people get on only on the floor where they wait, in an elevator that goes their way |
| ElevatorSystem.NobodyLeftBehind | elevator/improved/elevator.c:342-416 | unless the time is up, everybody gets on who waits on the floor and wants a floor further in the direction, and nobody else leaves the queue |
| ElevatorSystem.DroppedAtDestination | elevator/improved/elevator.c:266-303 | people get off only on the floor they want, carried exactly the distance of the ride |
| ElevatorSystem.EveryStopDelivers | elevator/improved/main.c:151-156 | every move with people aboard ends on a floor that somebody aboard wants, and whatever happens elsewhere meanwhile, dropping people there delivers somebody unless time is up by then |
| ElevatorSystem.DirectionChangesOnlyWhenEmpty | elevator/improved/main.c:142-149 | the direction changes only in an elevator without people |
| ElevatorSystem.MovesCounted | elevator/improved/elevator.c:229-242 | the count of a sweep rises by exactly one with each change of floor while people are aboard |
| ElevatorSystem.SweepBound | elevator/improved/main.c:141-166 | a sweep has at most n_floors − 1 moves with people aboard |
| ElevatorSystem.NeverCrashes | elevator/improved/elevator.c:217-221 | the floor stays in range and the checks for a negative destination and a zero direction never fire |
| ElevatorSystem.DropsArrivals | elevator/improved/elevator.c:266-303 | the step's removal on passengers is the removal that the heap method performs on people |
| ElevatorSystem.StepConserves | elevator/improved/elevator.c:255-416 | a step of an elevator only moves people between queue, elevator and those delivered |
| ElevatorSystem.InOnePlace | elevator/improved/main.c:60-174 | everybody made is in exactly one place, once: waiting, aboard one elevator, or delivered |
| ElevatorSystem.FinishedTotals | elevator/improved/main.c:228-240 | after all joins `num_people_finished` is the number delivered, and the difference to `num_people_started` is those waiting or still aboard |
| ElevatorEnd.EndOrStuck | elevator/improved/main.c:141-173 | a program cannot go on if and only if the maker has stopped and every elevator has finished or sleeps; that is an end if and only if the state is alive. Otherwise either no elevator left its loop, all sleep and nobody waits, or an elevator fell asleep after the time was up |
| ElevatorEnd.StaysHopeless | elevator/improved/main.c:141-173 | no step but a spurious wakeup makes a state alive that is not |
| ElevatorEnd.AliveCanEnd | elevator/improved/main.c:141-173 | from every reachable state that is alive some schedule without spurious wakeups brings all elevators to their end |
| ElevatorEnd.CanEndIff | elevator/improved/main.c:141-173 | without spurious wakeups a simulation can still end if and only if its state is alive |
| ElevatorEnd.CanGetStuck | elevator/improved/elevator.c:156-159 | for every number of elevators and floors, a run that hangs with all elevators waiting for people when the time is up |
| ElevatorEnd.CanLoseWakeup | elevator/improved/main.c:169-170 | for every number of floors and of elevators from two on, a run that hangs because the signals after `timesup` was set come between an elevator's test of the flag and its sleep |
| ElevatorSystem.RunForgetsNobody | elevator/improved/people.c:154-164 | every step of an elevator keeps: while people wait and time is not up some elevator is awake; once it is up, and unless one fell asleep too late, some elevator awake will still signal |
| ElevatorSystem.MakeMonitorInv | elevator/improved/people.c:75-89 | adding a person and signalling keeps the same, whichever sleepers the signal wakes |
| ElevatorSystem.WhoWakes | elevator/improved/people.c:159-164 | an elevator that leaves, or finds under the mutex that the time is up, wakes a sleeper if there is one, and no other step of an elevator wakes one |
| ElevatorSystem.AnybodyCanCome | elevator/improved/main.c:81-90 | any two different floors can be those of the next person |
| ElevatorEnd.TimesUpGoesOn | elevator/improved/main.c:157-173 | once the time is up an unfinished elevator can go on unless it sleeps, or waits for a mutex whose holder can go on |
| ElevatorEnd.TimesUpEndsAll | elevator/improved/main.c:157-173 | once the time is up every run has at most seven steps for each elevator and delivers nobody any more |
| ElevatorSystem.EveryRunConserves | elevator/improved/main.c:60-174 | in every run of any number of elevators nobody is lost or duplicated, everybody delivered was carried exactly the length of the ride, and the final counts are right |
| SharedRing.CountersMeasureGap | IPC/posixshm/ringbuffer.c:34-74 | across any number of wraps the difference of the counters is the number of unread messages, and each counter's slot is that of its message |
| SharedRing.StepInv | IPC/posixshm/ringbuffer.c:45-73 | every test, store, load and increment of either side keeps the channel invariant |
| SharedRing.NeverBothWaiting | IPC/posixshm/ringbuffer.c:45-69 | unless both sides are done one of them can go on without spinning |
| SharedRing.AccessesCount | IPC/posixshm/main.c:127-139 | over every run the steps that do not spin are counted exactly by what remains to be done |
| SharedRing.ChannelIsFifo | IPC/posixshm/ringbuffer.c:18-74 | for every size that divides 2^32, from any equal start of the counters and for any number of messages: what was received is a prefix of what was sent, and 0 ≤ sent − received ≤ size |
| SharedRing.TransferAgrees | IPC/posixshm/main.c:182-199 | a receiver that stopped has the payload and then -1, the number of messages, and, like the sender, their sum modulo 2^64; every run makes at most six accesses per message, and one that can only spin is complete |
| SharedRing.SlotsNeverClashIff | IPC/posixshm/ringbuffer.c:46-70 | fewer than `size` steps never lead back to an unread slot if and only if the size divides 2^32 |
| SharedRing.WrapBreaksFifo | IPC/posixshm/ringbuffer.c:34-74 | for every size that does not divide 2^32, a start, messages and a run in which the first message received is not the first one sent |
| SharedRing.AlwaysFifoIff | IPC/posixshm/ringbuffer.c:18-74 | the channel is in order in every run from every start if and only if the size divides 2^32 |
| SharedRing.UnreadIsInFlight | IPC/posixshm/ringbuffer.c:34-74 | in every reachable state the slots from tail to head hold exactly the messages sent and not yet received |
| SharedRing.SharedBuffer.InitBuffer | IPC/posixshm/ringbuffer.c:18-26 | afterwards nothing is unread |
| SharedRing.SharedBuffer.TestFull | IPC/posixshm/ringbuffer.c:45 | the test holds exactly when as many messages are unread as there are slots |
| SharedRing.SharedBuffer.AddItem | IPC/posixshm/ringbuffer.c:46-50 | after its wait `rb_add` puts the item behind the unread messages, which stay as they are |
| SharedRing.SharedBuffer.StoreItem | IPC/posixshm/ringbuffer.c:46-47 | the item goes to slot `head` mod size and disturbs no unread message |
| SharedRing.SharedBuffer.PublishItem | IPC/posixshm/ringbuffer.c:48 | the increment makes what was stored the last unread message |
| SharedRing.SharedBuffer.TestEmpty | IPC/posixshm/ringbuffer.c:69 | the test holds exactly when nothing is unread |
| SharedRing.SharedBuffer.RemoveItem | IPC/posixshm/ringbuffer.c:70-73 | after its wait `rb_remove` returns the first unread message and leaves the others |
| SharedRing.SharedBuffer.LoadItem | IPC/posixshm/ringbuffer.c:70-71 | the item loaded is the first unread message |
| SharedRing.SharedBuffer.ReleaseSlot | IPC/posixshm/ringbuffer.c:72 | the increment drops the first unread message and no other |
| MatrixMultiply.SequentialMultiply | matrix/PMM/seqmul.c:23-42 | the triple loop adds the matrix product to what the result matrix held, so a zero matrix becomes the product; -1 and no change for NULL or a dimension below 1 |
| MatrixMultiply.ProductOfUnitRow | matrix/PMM/seqmul.c:30-38 | first law of the product: a row of the left matrix that is `s` in column `p` and zero elsewhere gives `s` times row `p` of the right matrix |
| MatrixMultiply.ProductOfRowSum | matrix/PMM/seqmul.c:30-38 | second law: a row that is the sum of two rows gives the sum of theirs |
| MatrixMultiply.LawsDetermineProduct | matrix/PMM/seqmul.c:30-38 | whatever obeys the two laws for all left matrices gives the product |
| MatrixMultiply.ProductWithIdentity | matrix/PMM/seqmul.c:30-38 | with the identity on either side a matrix is the product if and only if it is the other matrix |
| MatrixMultiply.MakeTaskBoard | matrix/PMM/parmul.c:25-38 | a board of dimension² available cells |
| MatrixMultiply.GetTask | matrix/PMM/parmul.c:94-122 | the probing loop claims the first available cell round the board from the random start and returns its row and column, or reports none and changes nothing |
| MatrixMultiply.ProbeExhaustive | matrix/PMM/parmul.c:105-114 | "no task" is reported if and only if every cell is taken, wherever the probe starts |
| MatrixMultiply.ProbeFindsFirst | matrix/PMM/parmul.c:105-114 | the cell claimed is available, and all cells from the start round the board up to it are taken |
| MatrixMultiply.ComputeCell | matrix/PMM/parmul.c:145-150 | a worker's loop computes the inner product of row and column |
| MatrixMultiply.StepInv | matrix/PMM/parmul.c:139-152 | every claim and every store keeps: each cell is available and untouched, claimed by one worker and unwritten, or written once with its value |
| MatrixMultiply.ClaimsExclusive | matrix/PMM/parmul.c:104-116 | two workers never hold the same cell, and a cell that is held has not been written |
| MatrixMultiply.StepLowersMeasure | matrix/PMM/parmul.c:139-152 | every step lowers a natural measure by exactly one |
| MatrixMultiply.StoppedMeansProduct | matrix/PMM/parmul.c:165-183 | when all workers have stopped every cell was written exactly once and the matrix is the product |
| MatrixMultiply.ParallelEqualsSequential | matrix/PMM/parmul.c:165-183 | for every number of workers, schedule and random starts: a run that cannot go on took exactly two steps per cell and one per worker, and its matrix is that of the triple loop |
| MatrixMultiply.ParallelWithIdentity | matrix/PMM/parmul.c:165-183 | a finished parallel run with the identity on either side has the other matrix |
| ShellParser.RoundTrip | shell/parser.c:82-263 | commands whose words and redirections come in any order, with an optional `&` and possibly a last operator without a file, written with any gaps of the five delimiters, are parsed back exactly; of several redirections the last file counts |
| ShellParser.EveryLineIsWritten | shell/parser.c:82-263 | every line whatever is the writing of such commands, so the round trip says what is parsed from any line |
| ShellParser.DelimiterIff | shell/parser.h:20 | the delimiters are blank, tab, carriage return, line feed and bell |
| ShellParser.PipedIffNext | shell/parser.c:235-252 | for every list of tokens a block is flagged as piped if and only if another block follows |
| ShellParser.Tokenize | shell/parser.c:82-116 | for every line the growing array holds exactly the tokens and a final NULL, and is never left |
| ShellParser.CommandBlock.PushArg | shell/parser.c:147-167 | the argument is appended, NULL follows it, the rest of the block is unchanged and there is room again |
| ShellParser.GroupTokens | shell/parser.c:198-262 | the grouping loop builds a chain of blocks, linked by `next` and ended by NULL, whose contents are those of `Group` |
| ShellParser.CommandizeTokens | shell/parser.c:182-263 | a final `&` is taken off and reported, no tokens give NULL, all other lists give the chain for `Commandize` |
| ShellParser.Parse | shell/parser.c:275-306 | for every line the chain built in the heap is that of `ParseLine`, of which the round trip is proved |

## Left out

- Creating processes and threads, mutexes and condition variables themselves, `sleep`, `time`, `printf`, argument parsing: foreign calls. Their results are parameters or choices of the step systems; the ranges that argument parsing guarantees are kept.
- NULL for the structure that an operation works on: the error returns and exits for it are left out, because the methods are called on objects. NULL for other arguments is kept.
- Random numbers: parameters (`GetTask`, the people maker), so that every choice is covered.
- Failing `malloc`: the address malloc returns is a parameter, and the exit or early return on NULL is not modelled.
- Memory ordering of the hardware: shared accesses are sequentially consistent.
- Floating-point arithmetic: matrices hold integers, and the worker's `int total` does not overflow.
- Overflow of C `int` counters other than the ring counters: totals, `number`, `n_people`, the loop counters over slabs and tokens are unbounded.
- Semaphores.SemaphoreObject.Enter: the do-while loop of `semaphore_P` is split into its turns, because the lock is given up inside `cv_wait`; the turns are put together again as events and in `SemaphoreSystem`.
- Fairness: no scheduler is assumed. Bounds are in steps and moves, not in time.
- SlabAllocator.LinkSlabs: the `prev` links of slabs are written but nothing is stated about them, because nothing reads them and `popSlab` leaves them stale.
- SlabAllocator.ChopSlab: the chunk structures of a slab are separate nodes, linked one by one to the node before, not elements of one array that also link ahead.
- ElevatorLists.Elevator.DropPeople: freeing the dropped people is not modelled, nor is the line that is printed about them.
- ElevatorLists.Elevator.LetinPeople: the second reading of `timesup`, after the queue's mutex was given up, is the parameter `late`.
- ShellParser.CommandBlock.PushArg: a block that never gets an argument has no NULL terminator in its array, as in the C code; the terminator is claimed for blocks with an argument.
- ShellParser.CommandizeTokens: the background flag is false where the C code leaves the caller's variable alone; the flag bits of a block are four booleans.
- `strtok`: modelled on values; it overwrites the delimiters of the line in C.
- The process that spins in `rb_add` and `rb_remove` makes a step that changes nothing; that it is scheduled again is not assumed.
- IPC/sysvshm: the same ring with 512 entries, covered by the size parameter. IPC/sockets: input and output only.
- elevator/basic, the identical copies of sem.c, idmaker, gv and the `String` helpers: simpler versions of what is modelled, or used for output only.
- shell/executor.c, builtins.c, main.c and `readline`: fork, exec, dup2 and terminal input.
- balloc: whether its list is terminated is not decided by its code, which never sets the last `next`.
