/** Producers and consumers of matrix/MPMC as a step system: one step per semaphore operation, one per
    critical section. The system is generic in what a semaphore is: an abstract counter in
    `CounterSystem`, the mutex/condition-variable construction in `SemaphoreSystem`. */
module ProducerConsumer {
  import opened RingBuffer

  datatype Name = Mutex | Items | Spaces

  datatype Sems<S> = Sems(mutex: S, items: S, spaces: S) {
    function Get(n: Name): S {
      match n
      case Mutex => mutex
      case Items => items
      case Spaces => spaces
    }

    function Set(n: Name, s: S): Sems<S> {
      match n
      case Mutex => this.(mutex := s)
      case Items => this.(items := s)
      case Spaces => this.(spaces := s)
    }
  }

  /** The program points of `producer_entry`/`rbuffer_push` and `consumer_entry`/`rbuffer_pop`. */
  datatype Pc =
    | PushSpaces | PushMutex | PushCritical
    | QuotaRelMutex | QuotaRelSpaces
    | PushedRelMutex | PushedRelItems
    | PushReport | PushFinished
    | PopItems | PopMutex | PopCritical
    | DrainedRelMutex | DrainedRelItems
    | PoppedExtra | PoppedRelMutex | PoppedRelSpaces
    | PopReport | PopFinished

  datatype Action =
    | Acquire(sem: Name, next: Pc)
    | Release(sem: Name, next: Pc)
    | RunPush | RunPop
    | Report
    | Halt

  function ActionAt(pc: Pc): Action {
    match pc
    case PushSpaces => Acquire(Spaces, PushMutex)
    case PushMutex => Acquire(Mutex, PushCritical)
    case PushCritical => RunPush
    case QuotaRelMutex => Release(Mutex, QuotaRelSpaces)
    case QuotaRelSpaces => Release(Spaces, PushReport)
    case PushedRelMutex => Release(Mutex, PushedRelItems)
    case PushedRelItems => Release(Items, PushSpaces)
    case PushReport => Report
    case PushFinished => Halt
    case PopItems => Acquire(Items, PopMutex)
    case PopMutex => Acquire(Mutex, PopCritical)
    case PopCritical => RunPop
    case DrainedRelMutex => Release(Mutex, DrainedRelItems)
    case DrainedRelItems => Release(Items, PopReport)
    case PoppedExtra => Release(Items, PoppedRelMutex)
    case PoppedRelMutex => Release(Mutex, PoppedRelSpaces)
    case PoppedRelSpaces => Release(Spaces, PopItems)
    case PopReport => Report
    case PopFinished => Halt
  }

  /** `count` is the local `i`: how many pushes (pops) of this thread have returned with an item. */
  datatype Thread = Thread(pc: Pc, count: nat) {
    function At(pc': Pc): Thread {
      Thread(pc', if pc.PushedRelItems? || pc.PoppedRelSpaces? then count + 1 else count)
    }

    predicate IsProducer() {
      match pc
      case PushSpaces | PushMutex | PushCritical | QuotaRelMutex | QuotaRelSpaces
         | PushedRelMutex | PushedRelItems | PushReport | PushFinished => true
      case _ => false
    }

    predicate Finished() { ActionAt(pc).Halt? }
  }

  /** `pushed` and `popped` record the items in the order of the critical sections. */
  datatype State<S> = State(
    buffer: Buffer, sems: Sems<S>, threads: seq<Thread>,
    produced: int, consumed: int,
    pushed: seq<int>, popped: seq<int>)
  {
    function Goto(t: nat, pc: Pc): State<S>
      requires t < |threads|
    {
      this.(threads := threads[t := threads[t].At(pc)])
    }
  }

  /** The parameters that `parse_args` lets through; they are C ints. */
  datatype Config = Config(producers: nat, consumers: nat, numAll: nat, length: nat) {
    predicate Valid() {
      && producers >= 1 && consumers >= 1
      && 1 <= numAll < 0x8000_0000
      && 1 <= length < 0x8000_0000
    }
  }

  function InitialThreads(cfg: Config): (ts: seq<Thread>)
    ensures |ts| == cfg.producers + cfg.consumers
  {
    seq(cfg.producers, _ => Thread(PushSpaces, 0)) + seq(cfg.consumers, _ => Thread(PopItems, 0))
  }

  /** `make_shared` and thread creation, with the semaphores given; the slots hold whatever malloc returned. */
  predicate Init<S(==)>(cfg: Config, s: State<S>, sems: Sems<S>) {
    && |s.buffer.slots| == cfg.length
    && s.buffer == Buffer(s.buffer.slots, 0, 0, cfg.numAll, cfg.numAll)
    && s.sems == sems
    && s.threads == InitialThreads(cfg)
    && s.produced == 0 && s.consumed == 0
    && s.pushed == [] && s.popped == []
  }

  /** The steps that touch no semaphore. */
  function LocalStep<S>(s: State<S>, t: nat): State<S>
    requires t < |s.threads| && |s.buffer.slots| > 0
    requires var a := ActionAt(s.threads[t].pc); a.RunPush? || a.RunPop? || a.Report?
  {
    var count := s.threads[t].count;
    match s.threads[t].pc
    case PushCritical =>
      var r := Push(s.buffer, count);
      if r.quotaReached
      then s.(buffer := r.buffer).Goto(t, QuotaRelMutex)
      else s.(buffer := r.buffer, pushed := s.pushed + [count]).Goto(t, PushedRelMutex)
    case PopCritical =>
      var r := Pop(s.buffer);
      if r.drained
      then s.(buffer := r.buffer).Goto(t, DrainedRelMutex)
      else s.(buffer := r.buffer, popped := s.popped + [r.item])
           .Goto(t, if r.wakeOthers then PoppedExtra else PoppedRelMutex)
    case PushReport => s.(produced := s.produced + count).Goto(t, PushFinished)
    case PopReport => s.(consumed := s.consumed + count).Goto(t, PopFinished)
  }
}
