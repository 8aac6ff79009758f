/** The producer/consumer system over abstract counting semaphores: its invariant, deadlock freedom and a
    measure that every step lowers. */
module CounterSystem {
  import opened Unsigned
  import opened RingBuffer
  import opened ProducerConsumer
  import opened Sums

  predicate CanStep(s: State<nat>, t: nat) {
    && t < |s.threads| && |s.buffer.slots| > 0
    && match ActionAt(s.threads[t].pc)
       case Acquire(sem, _) => s.sems.Get(sem) > 0
       case Halt => false
       case _ => true
  }

  function Step(s: State<nat>, t: nat): State<nat>
    requires CanStep(s, t)
  {
    var a := ActionAt(s.threads[t].pc);
    if a.Acquire? then s.(sems := s.sems.Set(a.sem, s.sems.Get(a.sem) - 1)).Goto(t, a.next)
    else if a.Release? then s.(sems := s.sems.Set(a.sem, s.sems.Get(a.sem) + 1)).Goto(t, a.next)
    else LocalStep(s, t)
  }

  predicate Initial(cfg: Config, s: State<nat>) { Init(cfg, s, Sems(1, 0, cfg.length)) }

  // ----- Credit accounting --------------------------------------------------------------------------

  function HoldsMutex(th: Thread): int {
    match th.pc
    case PushCritical | QuotaRelMutex | PushedRelMutex
       | PopCritical | DrainedRelMutex | PoppedExtra | PoppedRelMutex => 1
    case _ => 0
  }

  /** A `spaces` credit held by a pusher, or owed by a pop that has freed its slot. */
  function HoldsSpace(th: Thread): int {
    match th.pc
    case PushMutex | PushCritical | QuotaRelMutex | QuotaRelSpaces | PoppedExtra | PoppedRelMutex | PoppedRelSpaces => 1
    case _ => 0
  }

  /** An `items` credit held by a popper, or owed by a push or by the pop of the last item. */
  function HoldsItem(th: Thread): int {
    match th.pc
    case PopMutex | PopCritical | DrainedRelMutex | DrainedRelItems | PushedRelMutex | PushedRelItems | PoppedExtra => 1
    case _ => 0
  }

  /** Pushes (pops) of a thread that are not yet part of the global total. */
  function UnreportedPushes(th: Thread): int {
    if !th.IsProducer() || th.pc.PushFinished? then 0
    else th.count + if th.pc.PushedRelMutex? || th.pc.PushedRelItems? then 1 else 0
  }

  function UnreportedPops(th: Thread): int {
    if th.IsProducer() || th.pc.PopFinished? then 0
    else th.count + if th.pc.PoppedExtra? || th.pc.PoppedRelMutex? || th.pc.PoppedRelSpaces? then 1 else 0
  }

  predicate SawQuota(pc: Pc) { pc.QuotaRelMutex? || pc.QuotaRelSpaces? || pc.PushReport? || pc.PushFinished? }
  predicate SawDrained(pc: Pc) { pc.DrainedRelMutex? || pc.DrainedRelItems? || pc.PopReport? || pc.PopFinished? }

  predicate Accounts(cfg: Config, s: State<nat>) {
    var b := s.buffer;
    && s.sems.mutex + Sum(s.threads, HoldsMutex) == 1
    && s.sems.spaces + Sum(s.threads, HoldsSpace) + (b.head - b.tail) == cfg.length
    && s.sems.items + Sum(s.threads, HoldsItem)
       == (b.head - b.tail) + (if b.tail == cfg.numAll then 1 else 0)
    && s.produced + Sum(s.threads, UnreportedPushes) == b.head
    && s.consumed + Sum(s.threads, UnreportedPops) == b.tail
  }

  predicate Fifo(s: State<nat>)
    requires |s.buffer.slots| > 0
  {
    && |s.pushed| == s.buffer.head
    && s.buffer.tail <= |s.pushed|
    && s.popped == s.pushed[..s.buffer.tail]
    && forall k :: s.buffer.tail <= k < s.buffer.head ==> s.buffer.slots[k % |s.buffer.slots|] == s.pushed[k]
  }

  predicate Inv(cfg: Config, s: State<nat>) {
    && cfg.Valid()
    && |s.buffer.slots| == cfg.length
    && s.buffer.tail <= s.buffer.head <= cfg.numAll
    && s.buffer.toProduce == cfg.numAll - s.buffer.head
    && s.buffer.toConsume == cfg.numAll - s.buffer.tail
    && |s.threads| == cfg.producers + cfg.consumers
    && (forall t :: 0 <= t < |s.threads| ==> (s.threads[t].IsProducer() <==> t < cfg.producers))
    && (forall t :: 0 <= t < |s.threads| && SawQuota(s.threads[t].pc) ==> s.buffer.head == cfg.numAll)
    && (forall t :: 0 <= t < |s.threads| && SawDrained(s.threads[t].pc) ==> s.buffer.tail == cfg.numAll)
    && Accounts(cfg, s)
    && Fifo(s)
  }

  // ----- The invariant holds initially and is kept --------------------------------------------------

  lemma InitInv(cfg: Config, s: State<nat>)
    requires cfg.Valid() && Initial(cfg, s)
    ensures Inv(cfg, s)
  {
    InitAccounts(cfg, s);
    hide Accounts;
  }

  lemma InitAccounts(cfg: Config, s: State<nat>)
    requires cfg.Valid() && Initial(cfg, s)
    ensures Accounts(cfg, s)
  {
    SumBounds(s.threads, HoldsMutex, 0, 0);
    SumBounds(s.threads, HoldsSpace, 0, 0);
    SumBounds(s.threads, HoldsItem, 0, 0);
    SumBounds(s.threads, UnreportedPushes, 0, 0);
    SumBounds(s.threads, UnreportedPops, 0, 0);
  }

  lemma Retally(ts: seq<Thread>, t: nat, th: Thread)
    requires t < |ts|
    ensures Sum(ts[t := th], HoldsMutex) == Sum(ts, HoldsMutex) - HoldsMutex(ts[t]) + HoldsMutex(th)
    ensures Sum(ts[t := th], HoldsSpace) == Sum(ts, HoldsSpace) - HoldsSpace(ts[t]) + HoldsSpace(th)
    ensures Sum(ts[t := th], HoldsItem) == Sum(ts, HoldsItem) - HoldsItem(ts[t]) + HoldsItem(th)
    ensures Sum(ts[t := th], UnreportedPushes)
            == Sum(ts, UnreportedPushes) - UnreportedPushes(ts[t]) + UnreportedPushes(th)
    ensures Sum(ts[t := th], UnreportedPops)
            == Sum(ts, UnreportedPops) - UnreportedPops(ts[t]) + UnreportedPops(th)
  {
    SumUpdate(ts, HoldsMutex, t, th);
    SumUpdate(ts, HoldsSpace, t, th);
    SumUpdate(ts, HoldsItem, t, th);
    SumUpdate(ts, UnreportedPushes, t, th);
    SumUpdate(ts, UnreportedPops, t, th);
  }

  lemma CreditsBound(cfg: Config, s: State<nat>, t: nat)
    requires Inv(cfg, s) && t < |s.threads|
    ensures HoldsSpace(s.threads[t]) + (s.buffer.head - s.buffer.tail) <= cfg.length
    ensures HoldsItem(s.threads[t]) <= (s.buffer.head - s.buffer.tail) + (if s.buffer.tail == cfg.numAll then 1 else 0)
  {
    SumCovers(s.threads, HoldsSpace, t, t);
    SumCovers(s.threads, HoldsItem, t, t);
  }

  /** A pusher in its critical section finds a free slot. */
  lemma PushFindsRoom(cfg: Config, s: State<nat>, t: nat)
    requires Inv(cfg, s) && t < |s.threads| && s.threads[t].pc.PushCritical?
    ensures s.buffer.head - s.buffer.tail < cfg.length
    ensures forall k :: s.buffer.tail <= k < s.buffer.head ==> k % cfg.length != s.buffer.head % cfg.length
  {
    CreditsBound(cfg, s, t);
    forall k | s.buffer.tail <= k < s.buffer.head
      ensures k % cfg.length != s.buffer.head % cfg.length
    {
      DistinctSlots(k, s.buffer.head, cfg.length);
    }
  }

  /** A popper in its critical section finds an item, or the whole quota has been consumed. */
  lemma PopFindsItem(cfg: Config, s: State<nat>, t: nat)
    requires Inv(cfg, s) && t < |s.threads| && s.threads[t].pc.PopCritical?
    ensures Pop(s.buffer).drained <==> s.buffer.tail == cfg.numAll
    ensures !Pop(s.buffer).drained ==> s.buffer.tail < s.buffer.head
  {
    CreditsBound(cfg, s, t);
  }

  lemma PushKeepsFifo(cfg: Config, s: State<nat>, t: nat)
    requires Inv(cfg, s) && t < |s.threads| && s.threads[t].pc.PushCritical?
    requires !Push(s.buffer, s.threads[t].count).quotaReached
    ensures CanStep(s, t) && |Step(s, t).buffer.slots| == cfg.length && Fifo(Step(s, t))
  {
    PushFindsRoom(cfg, s, t);
  }

  /** A semaphore operation moves a thread's credit in or out of that semaphore and nowhere else. */
  lemma AcquireMovesCredit(th: Thread)
    requires ActionAt(th.pc).Acquire?
    ensures var a := ActionAt(th.pc); var th' := th.At(a.next);
            && HoldsMutex(th') == HoldsMutex(th) + (if a.sem.Mutex? then 1 else 0)
            && HoldsSpace(th') == HoldsSpace(th) + (if a.sem.Spaces? then 1 else 0)
            && HoldsItem(th') == HoldsItem(th) + (if a.sem.Items? then 1 else 0)
            && UnreportedPushes(th') == UnreportedPushes(th)
            && UnreportedPops(th') == UnreportedPops(th)
  {
  }

  lemma ReleaseMovesCredit(th: Thread)
    requires ActionAt(th.pc).Release?
    ensures var a := ActionAt(th.pc); var th' := th.At(a.next);
            && HoldsMutex(th') == HoldsMutex(th) - (if a.sem.Mutex? then 1 else 0)
            && HoldsSpace(th') == HoldsSpace(th) - (if a.sem.Spaces? then 1 else 0)
            && HoldsItem(th') == HoldsItem(th) - (if a.sem.Items? then 1 else 0)
            && UnreportedPushes(th') == UnreportedPushes(th)
            && UnreportedPops(th') == UnreportedPops(th)
  {
  }

  lemma SemaphoreStepAccounts(cfg: Config, s: State<nat>, t: nat)
    requires Inv(cfg, s) && CanStep(s, t)
    requires var a := ActionAt(s.threads[t].pc); a.Acquire? || a.Release?
    ensures Accounts(cfg, Step(s, t))
  {
    var a := ActionAt(s.threads[t].pc);
    var th' := s.threads[t].At(a.next);
    Retally(s.threads, t, th');
    if a.Acquire? {
      AcquireMovesCredit(s.threads[t]);
    } else {
      ReleaseMovesCredit(s.threads[t]);
    }
  }

  lemma SemaphoreStepInv(cfg: Config, s: State<nat>, t: nat)
    requires Inv(cfg, s) && CanStep(s, t)
    requires var a := ActionAt(s.threads[t].pc); a.Acquire? || a.Release?
    ensures Inv(cfg, Step(s, t))
  {
    SemaphoreStepAccounts(cfg, s, t);
    hide Accounts;
  }

  /** What a critical section does to the credits its thread holds or owes. */
  lemma PushMovesCredit(th: Thread)
    requires th.pc.PushCritical?
    ensures var th' := th.At(PushedRelMutex);
            && HoldsMutex(th') == HoldsMutex(th)
            && HoldsSpace(th') == HoldsSpace(th) - 1
            && HoldsItem(th') == HoldsItem(th) + 1
            && UnreportedPushes(th') == UnreportedPushes(th) + 1
            && UnreportedPops(th') == UnreportedPops(th)
    ensures var th' := th.At(QuotaRelMutex);
            && HoldsMutex(th') == HoldsMutex(th)
            && HoldsSpace(th') == HoldsSpace(th)
            && HoldsItem(th') == HoldsItem(th)
            && UnreportedPushes(th') == UnreportedPushes(th)
            && UnreportedPops(th') == UnreportedPops(th)
  {
  }

  lemma PopMovesCredit(th: Thread, extra: bool)
    requires th.pc.PopCritical?
    ensures var th' := th.At(if extra then PoppedExtra else PoppedRelMutex);
            && HoldsMutex(th') == HoldsMutex(th)
            && HoldsSpace(th') == HoldsSpace(th) + 1
            && HoldsItem(th') == HoldsItem(th) - (if extra then 0 else 1)
            && UnreportedPushes(th') == UnreportedPushes(th)
            && UnreportedPops(th') == UnreportedPops(th) + 1
    ensures var th' := th.At(DrainedRelMutex);
            && HoldsMutex(th') == HoldsMutex(th)
            && HoldsSpace(th') == HoldsSpace(th)
            && HoldsItem(th') == HoldsItem(th)
            && UnreportedPushes(th') == UnreportedPushes(th)
            && UnreportedPops(th') == UnreportedPops(th)
  {
  }

  lemma PushStepAccounts(cfg: Config, s: State<nat>, t: nat)
    requires Inv(cfg, s) && CanStep(s, t) && s.threads[t].pc.PushCritical?
    ensures Accounts(cfg, Step(s, t))
  {
    hide Fifo;
    var r := Push(s.buffer, s.threads[t].count);
    PushMovesCredit(s.threads[t]);
    PushFindsRoom(cfg, s, t);
    Retally(s.threads, t, s.threads[t].At(if r.quotaReached then QuotaRelMutex else PushedRelMutex));
  }

  lemma PushStepInv(cfg: Config, s: State<nat>, t: nat)
    requires Inv(cfg, s) && CanStep(s, t) && s.threads[t].pc.PushCritical?
    ensures Inv(cfg, Step(s, t))
  {
    PushStepAccounts(cfg, s, t);
    hide Accounts;
    if Push(s.buffer, s.threads[t].count).quotaReached {
      assert Step(s, t).buffer == s.buffer;
    } else {
      PushKeepsFifo(cfg, s, t);
    }
  }

  lemma PopStepAccounts(cfg: Config, s: State<nat>, t: nat)
    requires Inv(cfg, s) && CanStep(s, t) && s.threads[t].pc.PopCritical?
    ensures Accounts(cfg, Step(s, t))
  {
    hide Fifo;
    var r := Pop(s.buffer);
    PopMovesCredit(s.threads[t], r.wakeOthers);
    PopFindsItem(cfg, s, t);
    if r.drained {
      Retally(s.threads, t, s.threads[t].At(DrainedRelMutex));
    } else {
      Retally(s.threads, t, s.threads[t].At(if r.wakeOthers then PoppedExtra else PoppedRelMutex));
    }
  }

  lemma PopStepInv(cfg: Config, s: State<nat>, t: nat)
    requires Inv(cfg, s) && CanStep(s, t) && s.threads[t].pc.PopCritical?
    ensures Inv(cfg, Step(s, t))
  {
    hide Accounts;
    PopFindsItem(cfg, s, t);
    PopStepAccounts(cfg, s, t);
  }

  lemma ReportStepInv(cfg: Config, s: State<nat>, t: nat)
    requires Inv(cfg, s) && CanStep(s, t) && ActionAt(s.threads[t].pc).Report?
    ensures Inv(cfg, Step(s, t))
  {
    hide Accounts;
    ReportStepAccounts(cfg, s, t);
  }

  lemma ReportStepAccounts(cfg: Config, s: State<nat>, t: nat)
    requires Inv(cfg, s) && CanStep(s, t) && ActionAt(s.threads[t].pc).Report?
    ensures Accounts(cfg, Step(s, t))
  {
    hide Fifo;
    var s' := Step(s, t);
    Retally(s.threads, t, s'.threads[t]);
    assert s'.threads == s.threads[t := s'.threads[t]];
  }

  lemma StepInv(cfg: Config, s: State<nat>, t: nat)
    requires Inv(cfg, s) && CanStep(s, t)
    ensures Inv(cfg, Step(s, t))
  {
    match ActionAt(s.threads[t].pc)
    case Acquire(_, _) => SemaphoreStepInv(cfg, s, t);
    case Release(_, _) => SemaphoreStepInv(cfg, s, t);
    case RunPush => PushStepInv(cfg, s, t);
    case RunPop => PopStepInv(cfg, s, t);
    case Report => ReportStepInv(cfg, s, t);
  }

  // ----- Safety --------------------------------------------------------------------------------------

  lemma MutualExclusion(cfg: Config, s: State<nat>, t: nat, u: nat)
    requires Inv(cfg, s) && t < |s.threads| && u < |s.threads|
    requires HoldsMutex(s.threads[t]) == 1 && HoldsMutex(s.threads[u]) == 1
    ensures t == u && s.sems.mutex == 0
  {
    SumCovers(s.threads, HoldsMutex, t, u);
  }

  /** What a reader starting at `tail` would see. */
  function Window(b: Buffer): seq<int>
    requires |b.slots| > 0
  {
    seq(Minus(b.head, b.tail), k requires 0 <= k => b.slots[(b.tail + k) % |b.slots|])
  }

  /** Nothing is lost, duplicated or reordered: items taken out, then those still inside, are those put in. */
  lemma FifoOrder(cfg: Config, s: State<nat>)
    requires Inv(cfg, s)
    ensures s.popped + Window(s.buffer) == s.pushed
    ensures |Window(s.buffer)| <= cfg.length
  {
    SumBounds(s.threads, HoldsSpace, 0, 1);
  }

  // ----- Progress ------------------------------------------------------------------------------------

  predicate AllFinished<S>(s: State<S>) {
    forall t :: 0 <= t < |s.threads| ==> s.threads[t].Finished()
  }

  predicate Blocked(s: State<nat>) {
    forall t :: 0 <= t < |s.threads| ==> !CanStep(s, t)
  }

  lemma BlockedHoldsNothing(cfg: Config, s: State<nat>)
    requires Inv(cfg, s) && Blocked(s)
    ensures s.sems.mutex == 1
    ensures s.sems.spaces + (s.buffer.head - s.buffer.tail) == cfg.length
    ensures s.sems.items == (s.buffer.head - s.buffer.tail) + (if s.buffer.tail == cfg.numAll then 1 else 0)
  {
    forall t | 0 <= t < |s.threads|
      ensures HoldsMutex(s.threads[t]) == 0
    {
      assert !CanStep(s, t);
    }
    SumBounds(s.threads, HoldsMutex, 0, 0);
    forall t | 0 <= t < |s.threads|
      ensures HoldsSpace(s.threads[t]) == 0 && HoldsItem(s.threads[t]) == 0
    {
      assert !CanStep(s, t);
    }
    SumBounds(s.threads, HoldsSpace, 0, 0);
    SumBounds(s.threads, HoldsItem, 0, 0);
  }

  /** Deadlock freedom: a state in which nobody can step is one in which everybody has finished. */
  lemma DeadlockFree(cfg: Config, s: State<nat>)
    requires Inv(cfg, s) && Blocked(s)
    ensures AllFinished(s)
  {
    BlockedHoldsNothing(cfg, s);
    var p, c := 0, cfg.producers;
    assert !CanStep(s, p) && s.threads[p].IsProducer();
    assert !CanStep(s, c) && !s.threads[c].IsProducer();
    forall t | 0 <= t < |s.threads|
      ensures s.threads[t].Finished()
    {
      assert !CanStep(s, t);
    }
  }

  lemma FinishedTotals(cfg: Config, s: State<nat>)
    requires Inv(cfg, s) && AllFinished(s)
    ensures s.produced == s.consumed == cfg.numAll
    ensures s.popped == s.pushed && |s.pushed| == cfg.numAll
    ensures s.sems == Sems(1, 1, cfg.length)
  {
    assert s.threads[0].Finished() && s.threads[cfg.producers].Finished();
    assert SawQuota(s.threads[0].pc) && SawDrained(s.threads[cfg.producers].pc);
    SumBounds(s.threads, UnreportedPushes, 0, 0);
    SumBounds(s.threads, UnreportedPops, 0, 0);
    SumBounds(s.threads, HoldsMutex, 0, 0);
    SumBounds(s.threads, HoldsSpace, 0, 0);
    SumBounds(s.threads, HoldsItem, 0, 0);
  }

  // ----- Termination and call counts -----------------------------------------------------------------

  function Rank(th: Thread): int {
    match th.pc
    case PoppedExtra => 9
    case PushedRelMutex | PoppedRelMutex => 8
    case PushedRelItems | PoppedRelSpaces => 7
    case PushSpaces | PopItems => 6
    case PushMutex | PopMutex => 5
    case PushCritical | PopCritical => 4
    case QuotaRelMutex | DrainedRelMutex => 3
    case QuotaRelSpaces | DrainedRelItems => 2
    case PushReport | PopReport => 1
    case PushFinished | PopFinished => 0
  }

  function Measure(cfg: Config, s: State<nat>): int {
    Sum(s.threads, Rank) + 5 * (cfg.numAll - s.buffer.head) + 6 * (cfg.numAll - s.buffer.tail)
  }

  /** 1 for a producer that has yet to call `rbuffer_push` again. */
  function OwesPushCall(th: Thread): int {
    match th.pc
    case PushSpaces | PushedRelMutex | PushedRelItems => 1
    case _ => 0
  }

  function OwesPopCall(th: Thread): int {
    match th.pc
    case PopItems | PoppedExtra | PoppedRelMutex | PoppedRelSpaces => 1
    case _ => 0
  }

  function PushCallsLeft(cfg: Config, s: State<nat>): int {
    (cfg.numAll - s.buffer.head) + Sum(s.threads, OwesPushCall)
  }

  function PopCallsLeft(cfg: Config, s: State<nat>): int {
    (cfg.numAll - s.buffer.tail) + Sum(s.threads, OwesPopCall)
  }

  lemma StepThread(s: State<nat>, t: nat)
    requires CanStep(s, t)
    ensures Step(s, t).threads == s.threads[t := Step(s, t).threads[t]]
  {
  }

  lemma StepRank(cfg: Config, s: State<nat>, t: nat)
    requires Inv(cfg, s) && CanStep(s, t)
    ensures var b, b' := s.buffer, Step(s, t).buffer;
            Rank(Step(s, t).threads[t]) < Rank(s.threads[t]) + 5 * (b'.head - b.head) + 6 * (b'.tail - b.tail)
  {
    if s.threads[t].pc.PopCritical? {
      PopFindsItem(cfg, s, t);
    }
  }

  lemma StepLowersMeasure(cfg: Config, s: State<nat>, t: nat)
    requires Inv(cfg, s) && CanStep(s, t)
    ensures 0 <= Measure(cfg, Step(s, t)) < Measure(cfg, s)
  {
    StepInv(cfg, s, t);
    StepThread(s, t);
    StepRank(cfg, s, t);
    SumUpdate(s.threads, Rank, t, Step(s, t).threads[t]);
    SumBounds(Step(s, t).threads, Rank, 0, 9);
  }

  lemma StepOwes(cfg: Config, s: State<nat>, t: nat)
    requires Inv(cfg, s) && CanStep(s, t)
    ensures OwesPushCall(Step(s, t).threads[t])
            == OwesPushCall(s.threads[t]) + (Step(s, t).buffer.head - s.buffer.head)
               - (if s.threads[t].pc.PushSpaces? then 1 else 0)
    ensures OwesPopCall(Step(s, t).threads[t])
            == OwesPopCall(s.threads[t]) + (Step(s, t).buffer.tail - s.buffer.tail)
               - (if s.threads[t].pc.PopItems? then 1 else 0)
  {
    hide Accounts, Fifo;
    assert s.buffer.tail <= s.buffer.head < UINT_RANGE - 1;
    if s.threads[t].pc.PopCritical? {
      PopFindsItem(cfg, s, t);
    }
    hide Inv;
  }

  lemma StepCountsCalls(cfg: Config, s: State<nat>, t: nat)
    requires Inv(cfg, s) && CanStep(s, t)
    ensures PushCallsLeft(cfg, Step(s, t)) == PushCallsLeft(cfg, s) - (if s.threads[t].pc.PushSpaces? then 1 else 0)
    ensures PopCallsLeft(cfg, Step(s, t)) == PopCallsLeft(cfg, s) - (if s.threads[t].pc.PopItems? then 1 else 0)
  {
    hide Inv, Step, OwesPushCall, OwesPopCall;
    StepThread(s, t);
    StepOwes(cfg, s, t);
    SumUpdate(s.threads, OwesPushCall, t, Step(s, t).threads[t]);
    SumUpdate(s.threads, OwesPopCall, t, Step(s, t).threads[t]);
  }

  // ----- Whole runs ----------------------------------------------------------------------------------

  predicate Run(s: State<nat>, schedule: seq<nat>)
    decreases |schedule|
  {
    schedule == [] || (CanStep(s, schedule[0]) && Run(Step(s, schedule[0]), schedule[1..]))
  }

  function After(s: State<nat>, schedule: seq<nat>): State<nat>
    requires Run(s, schedule)
    decreases |schedule|
  {
    if schedule == [] then s else After(Step(s, schedule[0]), schedule[1..])
  }

  /** How often a run begins a call, that is, leaves the program point `entry`. */
  function Calls(s: State<nat>, schedule: seq<nat>, entry: Pc): nat
    requires Run(s, schedule)
    decreases |schedule|
  {
    if schedule == [] then 0 else
      (if s.threads[schedule[0]].pc == entry then 1 else 0) + Calls(Step(s, schedule[0]), schedule[1..], entry)
  }

  lemma {:induction false} RunFacts(cfg: Config, s: State<nat>, schedule: seq<nat>)
    requires Inv(cfg, s) && Run(s, schedule)
    ensures Inv(cfg, After(s, schedule))
    ensures Measure(cfg, s) >= |schedule| + Measure(cfg, After(s, schedule))
    ensures PushCallsLeft(cfg, s) == Calls(s, schedule, PushSpaces) + PushCallsLeft(cfg, After(s, schedule))
    ensures PopCallsLeft(cfg, s) == Calls(s, schedule, PopItems) + PopCallsLeft(cfg, After(s, schedule))
    decreases |schedule|
  {
    hide Inv, Step, Measure, PushCallsLeft, PopCallsLeft;
    if schedule == [] {
    } else {
      var t := schedule[0];
      StepInv(cfg, s, t);
      StepLowersMeasure(cfg, s, t);
      StepCountsCalls(cfg, s, t);
      RunFacts(cfg, Step(s, t), schedule[1..]);
    }
  }

  lemma InitMeasures(cfg: Config, s: State<nat>)
    requires cfg.Valid() && Initial(cfg, s)
    ensures Measure(cfg, s) == 6 * (cfg.producers + cfg.consumers) + 11 * cfg.numAll
    ensures PushCallsLeft(cfg, s) == cfg.numAll + cfg.producers
    ensures PopCallsLeft(cfg, s) == cfg.numAll + cfg.consumers
  {
    var ps := seq(cfg.producers, _ => Thread(PushSpaces, 0));
    var cs := seq(cfg.consumers, _ => Thread(PopItems, 0));
    SumBounds(s.threads, Rank, 6, 6);
    SumAppend(ps, cs, OwesPushCall);
    SumBounds(ps, OwesPushCall, 1, 1);
    SumBounds(cs, OwesPushCall, 0, 0);
    SumAppend(ps, cs, OwesPopCall);
    SumBounds(ps, OwesPopCall, 0, 0);
    SumBounds(cs, OwesPopCall, 1, 1);
  }

  // ----- Which items are pushed ----------------------------------------------------------------------

  /** How many calls of `rbuffer_push` of a thread have put an item into the buffer. */
  function Completed(th: Thread): nat {
    if !th.IsProducer() then 0
    else th.count + if th.pc.PushedRelMutex? || th.pc.PushedRelItems? then 1 else 0
  }

  /** 1 for a producer that has put in more than `v` items. */
  function Past(v: nat): Thread -> int {
    (th: Thread) => if Completed(th) > v then 1 else 0
  }

  /** Each producer puts in 0, 1, 2, and so on: an item `v` is there once for every producer that got past it. */
  ghost predicate ItemsCounted<S(!new)>(s: State<S>) {
    && (forall v: nat :: multiset(s.pushed)[v] == Sum(s.threads, Past(v)))
    && forall x :: x in s.pushed ==> x >= 0
  }

  lemma StepCompletes(s: State<nat>, t: nat, v: nat)
    requires CanStep(s, t)
    ensures var s' := Step(s, t);
            || (s'.pushed == s.pushed && Past(v)(s'.threads[t]) == Past(v)(s.threads[t]))
            || (&& s'.pushed == s.pushed + [s.threads[t].count]
                && Past(v)(s'.threads[t]) == Past(v)(s.threads[t]) + if s.threads[t].count == v then 1 else 0)
  {
  }

  lemma StepCountsItems(s: State<nat>, t: nat)
    requires CanStep(s, t) && ItemsCounted(s)
    ensures ItemsCounted(Step(s, t))
  {
    hide Step, Past;
    var s' := Step(s, t);
    StepThread(s, t);
    forall v: nat
      ensures multiset(s'.pushed)[v] == Sum(s'.threads, Past(v))
    {
      StepCompletes(s, t, v);
      SumUpdate(s.threads, Past(v), t, s'.threads[t]);
    }
    StepCompletes(s, t, 0);
  }

  lemma {:induction false} RunCountsItems(s: State<nat>, schedule: seq<nat>)
    requires Run(s, schedule) && ItemsCounted(s)
    ensures ItemsCounted(After(s, schedule))
    decreases |schedule|
  {
    hide Step, ItemsCounted;
    if schedule == [] {
    } else {
      StepCountsItems(s, schedule[0]);
      RunCountsItems(Step(s, schedule[0]), schedule[1..]);
    }
  }

  lemma InitCountsItems(cfg: Config, s: State<nat>)
    requires Initial(cfg, s)
    ensures ItemsCounted(s)
  {
    forall v: nat
      ensures Sum(s.threads, Past(v)) == 0
    {
      SumBounds(s.threads, Past(v), 0, 0);
    }
  }

  /** In every state of every run the items put in so far are the numbers that the producers have counted. */
  lemma EveryRunCountsItems(cfg: Config, s: State<nat>, schedule: seq<nat>)
    requires Initial(cfg, s) && Run(s, schedule)
    ensures ItemsCounted(After(s, schedule))
  {
    InitCountsItems(cfg, s);
    RunCountsItems(s, schedule);
  }

  /** Every schedule ends after a bounded number of steps, and where it cannot go on every thread has
      finished, both totals are `numAll`, the consumers got exactly the pushed items in order, an item `v` once for
      every producer that counted past it, and exactly `numAll` calls plus one per thread were made. */
  lemma EveryRunEndsWell(cfg: Config, s: State<nat>, schedule: seq<nat>)
    requires cfg.Valid() && Initial(cfg, s) && Run(s, schedule)
    ensures |schedule| <= 6 * (cfg.producers + cfg.consumers) + 11 * cfg.numAll
    ensures var e := After(s, schedule);
            Blocked(e) ==>
              && AllFinished(e)
              && e.produced == e.consumed == cfg.numAll
              && e.popped == e.pushed && |e.pushed| == cfg.numAll
              && (forall x :: x in e.popped ==> x >= 0)
              && (forall v: nat :: multiset(e.popped)[v] == Sum(e.threads, Past(v)))
              && Calls(s, schedule, PushSpaces) == cfg.numAll + cfg.producers
              && Calls(s, schedule, PopItems) == cfg.numAll + cfg.consumers
  {
    InitInv(cfg, s);
    InitMeasures(cfg, s);
    RunFacts(cfg, s, schedule);
    EveryRunCountsItems(cfg, s, schedule);
    var e := After(s, schedule);
    SumBounds(e.threads, Rank, 0, 9);
    if Blocked(e) {
      hide Inv, Step, Run, After, Measure, Past;
      DeadlockFree(cfg, e);
      FinishedTotals(cfg, e);
      NoCallsOwed(e);
      FinishedCounters(cfg, e);
    }
  }

  lemma NoCallsOwed(s: State<nat>)
    requires AllFinished(s)
    ensures Sum(s.threads, OwesPushCall) == 0 == Sum(s.threads, OwesPopCall)
  {
    SumBounds(s.threads, OwesPushCall, 0, 0);
    SumBounds(s.threads, OwesPopCall, 0, 0);
  }

  lemma FinishedCounters(cfg: Config, s: State<nat>)
    requires Inv(cfg, s) && AllFinished(s)
    ensures s.buffer.head == cfg.numAll == s.buffer.tail
  {
    assert s.threads[0].Finished() && s.threads[cfg.producers].Finished();
  }
}
