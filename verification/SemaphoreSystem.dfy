/** The producer/consumer system over the semaphores of sem.c, with waiting, signals and spurious wakeups.
    It simulates the counter system, so everything proved there holds here too. */
module SemaphoreSystem {
  import opened ProducerConsumer
  import opened Sums
  import opened Unsigned
  import Sem = Semaphores
  import Counter = CounterSystem

  type System = State<Sem.Semaphore>

  /** `woken` matters only where the thread is about to release a semaphore. */
  datatype Move =
    | Run(t: nat, woken: set<nat>)
    | Spurious(t: nat, sem: Name)

  predicate CanMove(c: System, m: Move) {
    && m.t < |c.threads| && |c.buffer.slots| > 0
    && match m
       case Spurious(t, sem) => t in c.sems.Get(sem).asleep
       case Run(t, woken) =>
         match ActionAt(c.threads[t].pc)
         case Acquire(sem, _) => t !in c.sems.Get(sem).asleep
         case Release(sem, _) => Sem.SignalWakes(c.sems.Get(sem), woken)
         case Halt => false
         case _ => true
  }

  /** Does the move leave its thread where it was, inside P? */
  predicate Stutters(c: System, m: Move)
    requires CanMove(c, m)
  {
    m.Spurious? ||
    var a := ActionAt(c.threads[m.t].pc);
    a.Acquire? && Sem.TurnBlocks(c.sems.Get(a.sem), m.t)
  }

  function Apply(c: System, m: Move): System
    requires CanMove(c, m)
  {
    if m.Spurious? then
      c.(sems := c.sems.Set(m.sem, Sem.WakeSpuriously(c.sems.Get(m.sem), m.t)))
    else
      var a := ActionAt(c.threads[m.t].pc);
      if a.Acquire? then
        var c' := c.(sems := c.sems.Set(a.sem, Sem.TurnOfP(c.sems.Get(a.sem), m.t)));
        if Stutters(c, m) then c' else c'.Goto(m.t, a.next)
      else if a.Release? then
        c.(sems := c.sems.Set(a.sem, Sem.ApplyV(c.sems.Get(a.sem), m.woken))).Goto(m.t, a.next)
      else
        LocalStep(c, m.t)
  }

  // ----- Simulation ----------------------------------------------------------------------------------

  predicate InsideP(th: Thread, sem: Name) {
    var a := ActionAt(th.pc);
    a.Acquire? && a.sem == sem
  }

  /** A semaphore in good order whose waiters are all threads inside its P. */
  predicate SemOk(q: Sem.Semaphore, ts: seq<Thread>, sem: Name) {
    && q.Inv()
    && forall t :: t in q.Waiters() ==> t < |ts| && InsideP(ts[t], sem)
  }

  predicate Inv(c: System) {
    && SemOk(c.sems.mutex, c.threads, Mutex)
    && SemOk(c.sems.items, c.threads, Items)
    && SemOk(c.sems.spaces, c.threads, Spaces)
  }

  predicate Initial(cfg: Config, c: System) {
    Init(cfg, c, Sems(Sem.Make(1), Sem.Make(0), Sem.Make(cfg.length)))
  }

  /** Forget the waiting and keep the credits. */
  function Forget(c: System): State<nat> {
    State(c.buffer, Sems(c.sems.mutex.Credits(), c.sems.items.Credits(), c.sems.spaces.Credits()),
          c.threads, c.produced, c.consumed, c.pushed, c.popped)
  }

  lemma InitSimulates(cfg: Config, c: System)
    requires cfg.Valid() && Initial(cfg, c)
    ensures Inv(c) && Counter.Initial(cfg, Forget(c))
  {
    InitInv(cfg, c);
    InitForget(cfg, c);
  }

  lemma InitInv(cfg: Config, c: System)
    requires Initial(cfg, c)
    ensures Inv(c)
  {
  }

  lemma InitForget(cfg: Config, c: System)
    requires Initial(cfg, c)
    ensures Counter.Initial(cfg, Forget(c))
  {
    assert c.sems.mutex == Sem.Make(1);
    assert c.sems.items == Sem.Make(0);
    assert c.sems.spaces == Sem.Make(cfg.length);
    Sem.MakeInv(1);
    Sem.MakeInv(0);
    Sem.MakeInv(cfg.length);
  }

  /** A thread that is not inside P of a semaphore may move on without disturbing that semaphore. */
  lemma ThreadMovesOn(q: Sem.Semaphore, ts: seq<Thread>, sem: Name, t: nat, th: Thread)
    requires SemOk(q, ts, sem) && t < |ts|
    requires t !in q.Waiters() || !InsideP(ts[t], sem)
    ensures SemOk(q, ts[t := th], sem)
  {
  }

  /** All semaphores but one stay in good order when thread `t` moves on from inside that one, or from
      outside all of them. */
  lemma OthersMoveOn(c: System, t: nat, th: Thread, sem: Name)
    requires Inv(c) && t < |c.threads|
    requires ActionAt(c.threads[t].pc).Acquire? ==> InsideP(c.threads[t], sem)
    ensures forall other: Name :: other != sem ==> SemOk(c.sems.Get(other), c.threads[t := th], other)
  {
    forall other: Name | other != sem
      ensures SemOk(c.sems.Get(other), c.threads[t := th], other)
    {
      ThreadMovesOn(c.sems.Get(other), c.threads, other, t, th);
    }
  }

  lemma TurnKeepsOk(q: Sem.Semaphore, ts: seq<Thread>, sem: Name, t: nat, th: Thread)
    requires SemOk(q, ts, sem) && t < |ts| && InsideP(ts[t], sem) && t !in q.asleep
    ensures Sem.TurnBlocks(q, t) ==> SemOk(Sem.TurnOfP(q, t), ts, sem)
    ensures !Sem.TurnBlocks(q, t) ==> SemOk(Sem.TurnOfP(q, t), ts[t := th], sem)
  {
    var q' := Sem.TurnOfP(q, t);
    Sem.TurnOfPRefines(q, t);
    forall u | u in q'.Waiters()
      ensures u < |ts| && InsideP(ts[u], sem)
    {
      assert u in q.Waiters() + {t};
    }
    if !Sem.TurnBlocks(q, t) {
      ThreadMovesOn(q', ts, sem, t, th);
    }
  }

  lemma ReleaseKeepsOk(q: Sem.Semaphore, ts: seq<Thread>, sem: Name, t: nat, th: Thread, woken: set<nat>)
    requires SemOk(q, ts, sem) && t < |ts| && ActionAt(ts[t].pc).Release? && Sem.SignalWakes(q, woken)
    ensures SemOk(Sem.ApplyV(q, woken), ts[t := th], sem)
  {
    Sem.ApplyVRefines(q, woken);
    ThreadMovesOn(Sem.ApplyV(q, woken), ts, sem, t, th);
  }

  lemma SpuriousKeepsOk(q: Sem.Semaphore, ts: seq<Thread>, sem: Name, t: nat)
    requires SemOk(q, ts, sem) && t in q.asleep
    ensures SemOk(Sem.WakeSpuriously(q, t), ts, sem)
    ensures t < |ts| && InsideP(ts[t], sem)
  {
    Sem.WakeSpuriouslyRefines(q, t);
    assert t in q.Waiters();
  }

  lemma EventCredits(q: Sem.Semaphore, e: Sem.Event)
    requires q.Inv() && Sem.CanHappen(q, e)
    ensures Sem.After(q, e).Credits() == q.Credits() + Sem.Gain(q, e)
  {
  }

  lemma TurnCredits(q: Sem.Semaphore, t: nat)
    requires q.Inv() && t !in q.asleep
    ensures Sem.TurnOfP(q, t).Credits() == q.Credits() - (if Sem.TurnBlocks(q, t) then 0 else 1)
  {
  }

  lemma InvAfterSet(c: System, sem: Name, q: Sem.Semaphore, ts: seq<Thread>)
    requires SemOk(q, ts, sem)
    requires forall other: Name :: other != sem ==> SemOk(c.sems.Get(other), ts, other)
    ensures Inv(c.(sems := c.sems.Set(sem, q), threads := ts))
  {
    assert sem.Mutex? || SemOk(c.sems.Get(Mutex), ts, Mutex);
    assert sem.Items? || SemOk(c.sems.Get(Items), ts, Items);
    assert sem.Spaces? || SemOk(c.sems.Get(Spaces), ts, Spaces);
  }

  lemma ForgetAfterSet(c: System, sem: Name, q: Sem.Semaphore, ts: seq<Thread>)
    ensures Forget(c.(sems := c.sems.Set(sem, q), threads := ts))
            == Forget(c).(sems := Forget(c).sems.Set(sem, q.Credits()), threads := ts)
    ensures Forget(c).sems.Get(sem) == c.sems.Get(sem).Credits()
  {
  }

  function Turn(c: System, t: nat, sem: Name): System {
    c.(sems := c.sems.Set(sem, Sem.TurnOfP(c.sems.Get(sem), t)))
  }

  lemma BlockedTurnSimulates(c: System, t: nat, sem: Name)
    requires Inv(c) && t < |c.threads| && InsideP(c.threads[t], sem)
    requires t !in c.sems.Get(sem).asleep && Sem.TurnBlocks(c.sems.Get(sem), t)
    ensures Inv(Turn(c, t, sem)) && Forget(Turn(c, t, sem)) == Forget(c)
  {
    var q := c.sems.Get(sem);
    TurnKeepsOk(q, c.threads, sem, t, c.threads[t]);
    TurnCredits(q, t);
    OthersMoveOn(c, t, c.threads[t], sem);
    assert c.threads[t := c.threads[t]] == c.threads;
    InvAfterSet(c, sem, Sem.TurnOfP(q, t), c.threads);
    ForgetAfterSet(c, sem, Sem.TurnOfP(q, t), c.threads);
  }

  lemma PassedTurnSimulates(c: System, t: nat, sem: Name)
    requires Inv(c) && t < |c.threads| && InsideP(c.threads[t], sem) && |c.buffer.slots| > 0
    requires t !in c.sems.Get(sem).asleep && !Sem.TurnBlocks(c.sems.Get(sem), t)
    ensures var c' := Turn(c, t, sem).Goto(t, ActionAt(c.threads[t].pc).next);
            Inv(c') && Counter.CanStep(Forget(c), t) && Forget(c') == Counter.Step(Forget(c), t)
  {
    PassedTurnKeepsInv(c, t, sem);
    var q := c.sems.Get(sem);
    TurnCredits(q, t);
    ForgetAfterSet(c, sem, Sem.TurnOfP(q, t), c.threads[t := c.threads[t].At(ActionAt(c.threads[t].pc).next)]);
  }

  lemma PassedTurnKeepsInv(c: System, t: nat, sem: Name)
    requires Inv(c) && t < |c.threads| && InsideP(c.threads[t], sem)
    requires t !in c.sems.Get(sem).asleep && !Sem.TurnBlocks(c.sems.Get(sem), t)
    ensures Inv(Turn(c, t, sem).Goto(t, ActionAt(c.threads[t].pc).next))
  {
    var q := c.sems.Get(sem);
    var th' := c.threads[t].At(ActionAt(c.threads[t].pc).next);
    TurnKeepsOk(q, c.threads, sem, t, th');
    OthersMoveOn(c, t, th', sem);
    InvAfterSet(c, sem, Sem.TurnOfP(q, t), c.threads[t := th']);
  }

  lemma ReleaseSimulates(c: System, t: nat, woken: set<nat>)
    requires Inv(c) && CanMove(c, Run(t, woken)) && ActionAt(c.threads[t].pc).Release?
    ensures var c' := Apply(c, Run(t, woken));
            Inv(c') && Counter.CanStep(Forget(c), t) && Forget(c') == Counter.Step(Forget(c), t)
  {
    ReleaseKeepsInv(c, t, woken);
    EventCredits(c.sems.Get(ActionAt(c.threads[t].pc).sem), Sem.Release(woken));
    ReleaseForget(c, t, woken);
  }

  lemma ReleaseForget(c: System, t: nat, woken: set<nat>)
    requires CanMove(c, Run(t, woken)) && ActionAt(c.threads[t].pc).Release?
    requires var q := c.sems.Get(ActionAt(c.threads[t].pc).sem); Sem.ApplyV(q, woken).Credits() == q.Credits() + 1
    ensures Counter.CanStep(Forget(c), t) && Forget(Apply(c, Run(t, woken))) == Counter.Step(Forget(c), t)
  {
  }

  lemma ReleaseKeepsInv(c: System, t: nat, woken: set<nat>)
    requires Inv(c) && CanMove(c, Run(t, woken)) && ActionAt(c.threads[t].pc).Release?
    ensures Inv(Apply(c, Run(t, woken)))
  {
    var a := ActionAt(c.threads[t].pc);
    var q := c.sems.Get(a.sem);
    var th' := c.threads[t].At(a.next);
    ReleaseKeepsOk(q, c.threads, a.sem, t, th', woken);
    OthersMoveOn(c, t, th', a.sem);
    InvAfterSet(c, a.sem, Sem.ApplyV(q, woken), c.threads[t := th']);
  }

  lemma SpuriousSimulates(c: System, t: nat, sem: Name)
    requires Inv(c) && CanMove(c, Spurious(t, sem))
    ensures var c' := Apply(c, Spurious(t, sem)); Inv(c') && Forget(c') == Forget(c)
  {
    var q := c.sems.Get(sem);
    SpuriousKeepsOk(q, c.threads, sem, t);
    EventCredits(q, Sem.Spurious(t));
    OthersMoveOn(c, t, c.threads[t], sem);
    assert c.threads[t := c.threads[t]] == c.threads;
    InvAfterSet(c, sem, Sem.WakeSpuriously(q, t), c.threads);
    ForgetAfterSet(c, sem, Sem.WakeSpuriously(q, t), c.threads);
  }

  lemma LocalShape(c: System, m: Move)
    requires CanMove(c, m) && m.Run?
    requires var a := ActionAt(c.threads[m.t].pc); a.RunPush? || a.RunPop? || a.Report?
    ensures Apply(c, m).sems == c.sems
    ensures Apply(c, m).threads == c.threads[m.t := Apply(c, m).threads[m.t]]
  {
  }

  lemma LocalKeepsInv(c: System, m: Move)
    requires Inv(c) && CanMove(c, m) && m.Run?
    requires var a := ActionAt(c.threads[m.t].pc); a.RunPush? || a.RunPop? || a.Report?
    ensures Inv(Apply(c, m))
  {
    LocalShape(c, m);
    OthersMoveOn(c, m.t, Apply(c, m).threads[m.t], Mutex);
    OthersMoveOn(c, m.t, Apply(c, m).threads[m.t], Items);
    assert SemOk(c.sems.Get(Mutex), Apply(c, m).threads, Mutex);
    assert SemOk(c.sems.Get(Items), Apply(c, m).threads, Items);
    assert SemOk(c.sems.Get(Spaces), Apply(c, m).threads, Spaces);
  }

  lemma LocalSimulates(c: System, m: Move)
    requires CanMove(c, m) && m.Run?
    requires var a := ActionAt(c.threads[m.t].pc); a.RunPush? || a.RunPop? || a.Report?
    ensures Counter.CanStep(Forget(c), m.t) && Forget(Apply(c, m)) == Counter.Step(Forget(c), m.t)
  {
    LocalShape(c, m);
  }

  /** Each move is a step of the counter system by the same thread, or changes nothing there. */
  lemma MoveSimulates(c: System, m: Move)
    requires Inv(c) && CanMove(c, m)
    ensures Inv(Apply(c, m))
    ensures Stutters(c, m) ==> Forget(Apply(c, m)) == Forget(c)
    ensures !Stutters(c, m) ==> Counter.CanStep(Forget(c), m.t) && Forget(Apply(c, m)) == Counter.Step(Forget(c), m.t)
  {
    if m.Spurious? {
      SpuriousSimulates(c, m.t, m.sem);
    } else {
      match ActionAt(c.threads[m.t].pc)
      case Acquire(sem, _) =>
        if Stutters(c, m) {
          BlockedTurnSimulates(c, m.t, sem);
        } else {
          PassedTurnSimulates(c, m.t, sem);
        }
      case Release(_, _) =>
        ReleaseSimulates(c, m.t, m.woken);
      case _ =>
        LocalKeepsInv(c, m);
        LocalSimulates(c, m);
    }
  }

  // ----- Progress ------------------------------------------------------------------------------------

  /** A credit on offer always has a taker: a thread inside P that is not asleep. */
  lemma TakerExists(c: System, t: nat, sem: Name) returns (u: nat)
    requires Inv(c) && t < |c.threads| && InsideP(c.threads[t], sem) && c.sems.Get(sem).Credits() > 0
    ensures u < |c.threads| && InsideP(c.threads[u], sem) && u !in c.sems.Get(sem).asleep
  {
    var q := c.sems.Get(sem);
    if t in q.asleep {
      assert t in q.Waiters();
      u := Sem.NoLostWakeup(q);
      assert u in q.Waiters();
    } else {
      u := t;
    }
  }

  /** A thread that could step if the semaphores were counters gives some thread a move. */
  lemma StepGivesMove(c: System, t: nat) returns (m: Move)
    requires Inv(c) && t < |c.threads| && Counter.CanStep(Forget(c), t)
    ensures m.Run? && CanMove(c, m)
  {
    hide Sem.Semaphore.Inv, Sem.Semaphore.Credits;
    var a := ActionAt(c.threads[t].pc);
    if a.Acquire? {
      CreditsOf(c, a.sem);
      var u := TakerExists(c, t, a.sem);
      m := Run(u, {});
    } else if a.Release? {
      var q := c.sems.Get(a.sem);
      m := Run(t, if q.value + 1 <= 0 then q.asleep else {});
    } else {
      m := Run(t, {});
    }
  }

  lemma CreditsOf(c: System, sem: Name)
    ensures Forget(c).sems.Get(sem) == c.sems.Get(sem).Credits()
  {
  }

  /** Deadlock freedom with the real semaphores: an unfinished system has a move that is not a spurious
      wakeup. */
  lemma Progress(cfg: Config, c: System) returns (m: Move)
    requires Inv(c) && Counter.Inv(cfg, Forget(c)) && !Counter.AllFinished(c)
    ensures m.Run? && CanMove(c, m)
  {
    hide Inv, Counter.Inv, CanMove, Counter.CanStep;
    if Counter.Blocked(Forget(c)) {
      Counter.DeadlockFree(cfg, Forget(c));
    }
    var t :| 0 <= t < |c.threads| && Counter.CanStep(Forget(c), t);
    m := StepGivesMove(c, t);
  }

  // ----- Termination ---------------------------------------------------------------------------------

  /** The threads inside a P that are not asleep there. */
  predicate Eager(c: System, t: nat) {
    && t < |c.threads|
    && var a := ActionAt(c.threads[t].pc);
       a.Acquire? && t !in c.sems.Get(a.sem).asleep
  }

  function EagerThreads(c: System): set<nat> {
    set t | 0 <= t < |c.threads| && Eager(c, t)
  }

  lemma {:induction false} RangeSize(n: nat, s: set<nat>)
    requires forall t :: t in s ==> t < n
    ensures |s| <= n
  {
    if n == 0 {
      assert s == {};
    } else if n - 1 in s {
      RangeSize(n - 1, s - {n - 1});
    } else {
      RangeSize(n - 1, s);
    }
  }

  /** Every step of the counter system outweighs any number of threads waking up. */
  function Measure(cfg: Config, c: System): int {
    (|c.threads| + 1) * Counter.Measure(cfg, Forget(c)) + |EagerThreads(c)|
  }

  lemma StutterPutsToSleep(c: System, m: Move)
    requires CanMove(c, m) && m.Run? && Stutters(c, m)
    ensures Apply(c, m).threads == c.threads
    ensures EagerThreads(Apply(c, m)) == EagerThreads(c) - {m.t} && m.t in EagerThreads(c)
  {
  }

  lemma SpuriousWakesOne(c: System, m: Move)
    requires CanMove(c, m) && m.Spurious?
    ensures Apply(c, m).threads == c.threads
    ensures EagerThreads(Apply(c, m)) <= EagerThreads(c) + {m.t}
  {
  }

  lemma MoveKeepsInv(cfg: Config, c: System, m: Move)
    requires Inv(c) && Counter.Inv(cfg, Forget(c)) && CanMove(c, m)
    ensures Inv(Apply(c, m)) && Counter.Inv(cfg, Forget(Apply(c, m)))
  {
    hide Inv, Counter.Inv, Apply;
    MoveSimulates(c, m);
    if !Stutters(c, m) {
      Counter.StepInv(cfg, Forget(c), m.t);
    }
  }

  lemma StepMeasure(cfg: Config, c: System, m: Move)
    requires Inv(c) && Counter.Inv(cfg, Forget(c)) && CanMove(c, m) && !Stutters(c, m)
    ensures Measure(cfg, Apply(c, m)) < Measure(cfg, c)
  {
    hide Inv, Counter.Inv, Apply, Counter.Measure, EagerThreads;
    var c' := Apply(c, m);
    MoveSimulates(c, m);
    Counter.StepLowersMeasure(cfg, Forget(c), m.t);
    EagerBound(c');
    Drop(|c.threads| + 1, Counter.Measure(cfg, Forget(c)), Counter.Measure(cfg, Forget(c')));
    ThreadsStay(c, m);
  }

  lemma ThreadsStay(c: System, m: Move)
    requires CanMove(c, m)
    ensures |Apply(c, m).threads| == |c.threads|
  {
  }

  lemma InitialSize(cfg: Config, c: System)
    requires Initial(cfg, c)
    ensures |c.threads| == cfg.producers + cfg.consumers
  {
  }

  lemma EagerBound(c: System)
    ensures |EagerThreads(c)| <= |c.threads|
  {
    RangeSize(|c.threads|, EagerThreads(c));
  }

  /** Only a spurious wakeup can raise the measure, and by at most one. */
  lemma MoveMeasure(cfg: Config, c: System, m: Move)
    requires Inv(c) && Counter.Inv(cfg, Forget(c)) && CanMove(c, m)
    ensures Measure(cfg, Apply(c, m)) <= Measure(cfg, c) + (if m.Spurious? then 1 else -1)
  {
    hide Inv, Counter.Inv, Apply, Counter.Measure, EagerThreads;
    var c' := Apply(c, m);
    if Stutters(c, m) {
      MoveSimulates(c, m);
      if m.Spurious? {
        SpuriousWakesOne(c, m);
        SubsetSize(EagerThreads(c'), EagerThreads(c) + {m.t});
      } else {
        StutterPutsToSleep(c, m);
      }
    } else {
      StepMeasure(cfg, c, m);
    }
  }

  lemma Drop(k: nat, x: int, y: int)
    requires y < x
    ensures k * y + k <= k * x
  {
    assert k * x == k * y + k * (x - y);
    MultipleGap(k, x - y);
  }

  lemma SubsetSize(s: set<nat>, t: set<nat>)
    requires s <= t
    ensures |s| <= |t|
  {
    assert t == s + (t - s);
  }

  // ----- Whole runs ----------------------------------------------------------------------------------

  predicate Moves(c: System, moves: seq<Move>)
    decreases |moves|
  {
    moves == [] || (CanMove(c, moves[0]) && Moves(Apply(c, moves[0]), moves[1..]))
  }

  function After(c: System, moves: seq<Move>): System
    requires Moves(c, moves)
    decreases |moves|
  {
    if moves == [] then c else After(Apply(c, moves[0]), moves[1..])
  }

  /** What the counter system sees of a run. */
  function Schedule(c: System, moves: seq<Move>): seq<nat>
    requires Moves(c, moves)
    decreases |moves|
  {
    if moves == [] then [] else
      (if Stutters(c, moves[0]) then [] else [moves[0].t]) + Schedule(Apply(c, moves[0]), moves[1..])
  }

  function SpuriousWakeups(moves: seq<Move>): nat {
    if moves == [] then 0 else (if moves[0].Spurious? then 1 else 0) + SpuriousWakeups(moves[1..])
  }

  lemma {:induction false} RunSimulates(cfg: Config, c: System, moves: seq<Move>)
    requires Inv(c) && Counter.Inv(cfg, Forget(c)) && Moves(c, moves)
    ensures Inv(After(c, moves)) && Counter.Inv(cfg, Forget(After(c, moves)))
    ensures Counter.Run(Forget(c), Schedule(c, moves))
    ensures Counter.After(Forget(c), Schedule(c, moves)) == Forget(After(c, moves))
    ensures Measure(cfg, After(c, moves)) + |moves| <= Measure(cfg, c) + 2 * SpuriousWakeups(moves)
    decreases |moves|
  {
    hide Inv, Counter.Inv, Measure;
    if moves == [] {
    } else {
      var c' := Apply(c, moves[0]);
      MoveSimulates(c, moves[0]);
      MoveKeepsInv(cfg, c, moves[0]);
      MoveMeasure(cfg, c, moves[0]);
      RunSimulates(cfg, c', moves[1..]);
      if Stutters(c, moves[0]) {
        assert Schedule(c, moves) == Schedule(c', moves[1..]);
      } else {
        assert Schedule(c, moves)[1..] == Schedule(c', moves[1..]);
      }
    }
  }

  lemma CounterMeasureNatural(cfg: Config, s: State<nat>)
    requires Counter.Inv(cfg, s)
    ensures Counter.Measure(cfg, s) >= 0
  {
    SumBounds(s.threads, Counter.Rank, 0, 9);
  }

  /** The bound on the moves of a run without spurious wakeups. */
  function MoveBound(cfg: Config): int {
    var n := cfg.producers + cfg.consumers;
    (n + 1) * (6 * n + 11 * cfg.numAll) + n
  }

  ghost predicate Stuck(c: System) {
    forall m: Move :: m.Run? ==> !CanMove(c, m)
  }

  lemma MeasureNatural(cfg: Config, c: System)
    requires Counter.Inv(cfg, Forget(c))
    ensures Measure(cfg, c) >= 0
  {
    hide Counter.Inv, Counter.Measure;
    CounterMeasureNatural(cfg, Forget(c));
  }

  lemma InitialMeasure(cfg: Config, c: System)
    requires cfg.Valid() && Initial(cfg, c)
    ensures Measure(cfg, c) <= MoveBound(cfg)
  {
    hide Initial, Counter.Initial, Counter.Measure, EagerThreads, Forget;
    InitSimulates(cfg, c);
    Counter.InitMeasures(cfg, Forget(c));
    EagerBound(c);
    InitialSize(cfg, c);
  }

  lemma RunBound(cfg: Config, c: System, moves: seq<Move>)
    requires cfg.Valid() && Initial(cfg, c) && Moves(c, moves)
    ensures Inv(After(c, moves)) && Counter.Inv(cfg, Forget(After(c, moves)))
    ensures |moves| <= MoveBound(cfg) + 2 * SpuriousWakeups(moves)
  {
    hide Inv, Counter.Inv, Initial, Counter.Initial, Measure, MoveBound, Forget;
    InitSimulates(cfg, c);
    Counter.InitInv(cfg, Forget(c));
    InitialMeasure(cfg, c);
    RunSimulates(cfg, c, moves);
    MeasureNatural(cfg, After(c, moves));
  }

  lemma ItemsOfRun(cfg: Config, c: System, moves: seq<Move>)
    requires cfg.Valid() && Initial(cfg, c) && Moves(c, moves)
    ensures Counter.ItemsCounted(After(c, moves))
  {
    hide Inv, Counter.Inv, Initial, Counter.Initial, Measure;
    InitSimulates(cfg, c);
    Counter.InitInv(cfg, Forget(c));
    RunSimulates(cfg, c, moves);
    Counter.EveryRunCountsItems(cfg, Forget(c), Schedule(c, moves));
  }

  /** Whatever the schedule, the choice of sleepers that signals wake, and the spurious wakeups: the system
      makes boundedly many moves beyond two per spurious wakeup, and when no thread can move all have
      finished with every item delivered once and in order. Item `v` is put in once for every producer that counts
      past it, and at any time the items taken out are the first of those put in. */
  lemma EveryRunEndsWell(cfg: Config, c: System, moves: seq<Move>)
    requires cfg.Valid() && Initial(cfg, c) && Moves(c, moves)
    ensures |moves| <= MoveBound(cfg) + 2 * SpuriousWakeups(moves)
    ensures var e := After(c, moves);
            Stuck(e) ==>
              && Counter.AllFinished(e)
              && e.produced == e.consumed == cfg.numAll
              && e.popped == e.pushed && |e.pushed| == cfg.numAll
    ensures var e := After(c, moves);
            && (exists rest :: e.popped + rest == e.pushed)
            && (forall x :: x in e.pushed ==> x >= 0)
            && (forall v: nat :: multiset(e.pushed)[v] == Sum(e.threads, Counter.Past(v)))
  {
    hide Inv, Counter.Inv, Initial, MoveBound;
    RunBound(cfg, c, moves);
    var e := After(c, moves);
    ItemsOfRun(cfg, c, moves);
    Counter.FifoOrder(cfg, Forget(e));
    hide Counter.Window;
    if Stuck(e) {
      if !Counter.AllFinished(e) {
        var m := Progress(cfg, e);
      }
      Counter.FinishedTotals(cfg, Forget(e));
    }
  }
}
