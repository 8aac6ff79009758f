/** The counting semaphore that sem.c builds from a mutex, a condition variable and a value/wakeups pair.

    Every section of P and V that runs under the internal mutex is one step. A thread that must wait is
    `asleep` in the condition variable until a signal (or a spurious wakeup) makes it `awake`; an awake
    thread then competes for the internal mutex to test `wakeups` again. */
module Semaphores {

  type ThreadId = nat

  function Max0(x: int): nat { if x < 0 then 0 else x }

  datatype Semaphore = Semaphore(value: int, wakeups: int, asleep: set<ThreadId>, awake: set<ThreadId>) {

    function Waiters(): set<ThreadId> { asleep + awake }

    /** The abstract counter: how many P operations can still complete. */
    function Credits(): nat { Max0(value) + Max0(wakeups) }

    /** Exactly the waiters not yet matched by a wakeup show in a negative value, and there are always
        enough awake waiters to use up every recorded wakeup. */
    predicate Inv() {
      && asleep !! awake
      && 0 <= wakeups <= |awake|
      && |asleep| + |awake| - wakeups == Max0(-value)
    }
  }

  /** `make_semaphore`. */
  function Make(value: int): Semaphore { Semaphore(value, 0, {}, {}) }

  /** P, from taking the lock to either leaving or blocking in the condition variable. */
  function EnterP(s: Semaphore, t: ThreadId): Semaphore {
    if s.value - 1 < 0
    then s.(value := s.value - 1, asleep := s.asleep + {t})
    else s.(value := s.value - 1)
  }

  predicate EnterBlocks(s: Semaphore) { s.value - 1 < 0 }

  /** P, one turn of the wait loop: an awake thread has the lock again and tests `wakeups`. */
  function ResumeP(s: Semaphore, t: ThreadId): Semaphore {
    if s.wakeups < 1
    then s.(awake := s.awake - {t}, asleep := s.asleep + {t})
    else s.(awake := s.awake - {t}, wakeups := s.wakeups - 1)
  }

  predicate ResumeBlocks(s: Semaphore) { s.wakeups < 1 }

  /** V: `woken` are the sleepers that the signal wakes. */
  function ApplyV(s: Semaphore, woken: set<ThreadId>): Semaphore {
    if s.value + 1 <= 0
    then Semaphore(s.value + 1, s.wakeups + 1, s.asleep - woken, s.awake + woken)
    else s.(value := s.value + 1)
  }

  /** What POSIX says of a signal: it wakes at least one sleeper if there is one. No signal, nobody wakes. */
  predicate SignalWakes(s: Semaphore, woken: set<ThreadId>) {
    if s.value + 1 <= 0
    then woken <= s.asleep && (s.asleep != {} ==> woken != {})
    else woken == {}
  }

  /** A wakeup nobody asked for. */
  function WakeSpuriously(s: Semaphore, t: ThreadId): Semaphore {
    s.(asleep := s.asleep - {t}, awake := s.awake + {t})
  }

  // ----- Refinement of the abstract counter ---------------------------------------------------------

  lemma MakeInv(value: nat)
    ensures Make(value).Inv() && Make(value).Credits() == value
  {
  }

  /** A P that gets through at once takes one credit; one that blocks takes none. */
  lemma EnterPRefines(s: Semaphore, t: ThreadId)
    requires s.Inv() && t !in s.Waiters()
    ensures EnterP(s, t).Inv()
    ensures EnterBlocks(s) ==> EnterP(s, t).Credits() == s.Credits() && EnterP(s, t).Waiters() == s.Waiters() + {t}
    ensures EnterBlocks(s) ==> t in EnterP(s, t).asleep
    ensures !EnterBlocks(s) ==>
              s.Credits() > 0 && EnterP(s, t).Credits() == s.Credits() - 1 && EnterP(s, t).Waiters() == s.Waiters()
  {
  }

  lemma ResumePRefines(s: Semaphore, t: ThreadId)
    requires s.Inv() && t in s.awake
    ensures ResumeP(s, t).Inv()
    ensures ResumeBlocks(s) ==> ResumeP(s, t).Credits() == s.Credits() && ResumeP(s, t).Waiters() == s.Waiters()
    ensures ResumeBlocks(s) ==> t in ResumeP(s, t).asleep
    ensures !ResumeBlocks(s) ==>
              && s.Credits() > 0 && ResumeP(s, t).Credits() == s.Credits() - 1
              && ResumeP(s, t).Waiters() == s.Waiters() - {t}
  {
    if ResumeBlocks(s) {
      assert ResumeP(s, t).Waiters() == s.Waiters();
    } else {
      assert |s.awake - {t}| == |s.awake| - 1;
      assert ResumeP(s, t).Waiters() == s.Waiters() - {t};
    }
  }

  /** V adds exactly one credit and loses no waiter, whichever sleepers the signal picks. */
  lemma ApplyVRefines(s: Semaphore, woken: set<ThreadId>)
    requires s.Inv() && SignalWakes(s, woken)
    ensures ApplyV(s, woken).Inv()
    ensures ApplyV(s, woken).Credits() == s.Credits() + 1 && ApplyV(s, woken).Waiters() == s.Waiters()
    ensures woken <= ApplyV(s, woken).awake && ApplyV(s, woken).asleep == s.asleep - woken
  {
    if s.value + 1 <= 0 {
      assert s.asleep == (s.asleep - woken) + woken;
      assert |s.asleep| == |s.asleep - woken| + |woken|;
      assert |s.awake + woken| == |s.awake| + |woken|;
      if woken == {} {
        assert s.asleep == {};
      } else {
        var t :| t in woken;
        assert |woken| == |woken - {t}| + 1;
      }
      assert ApplyV(s, woken).Waiters() == s.Waiters();
    }
  }

  lemma WakeSpuriouslyRefines(s: Semaphore, t: ThreadId)
    requires s.Inv() && t in s.asleep
    ensures WakeSpuriously(s, t).Inv()
    ensures WakeSpuriously(s, t).Credits() == s.Credits() && WakeSpuriously(s, t).Waiters() == s.Waiters()
  {
  }

  /** No credit is stranded: while credits and waiters coexist, some waiter is awake and its next test of
      `wakeups` lets it through. */
  lemma NoLostWakeup(s: Semaphore) returns (t: ThreadId)
    requires s.Inv() && s.Credits() > 0 && s.Waiters() != {}
    ensures t in s.awake && !ResumeBlocks(s)
  {
    assert |s.Waiters()| == |s.asleep| + |s.awake|;
    assert s.wakeups > 0;
    t :| t in s.awake;
  }

  /** One turn of a thread inside P: its first, or a test of `wakeups` after it was woken. */
  function TurnOfP(s: Semaphore, t: ThreadId): Semaphore {
    if t in s.awake then ResumeP(s, t) else EnterP(s, t)
  }

  predicate TurnBlocks(s: Semaphore, t: ThreadId) {
    if t in s.awake then ResumeBlocks(s) else EnterBlocks(s)
  }

  lemma TurnOfPRefines(s: Semaphore, t: ThreadId)
    requires s.Inv() && t !in s.asleep
    ensures TurnOfP(s, t).Inv()
    ensures TurnOfP(s, t).Waiters() <= s.Waiters() + {t}
    ensures TurnBlocks(s, t) ==> TurnOfP(s, t).Credits() == s.Credits()
    ensures !TurnBlocks(s, t) ==>
              s.Credits() > 0 && TurnOfP(s, t).Credits() == s.Credits() - 1 && t !in TurnOfP(s, t).Waiters()
  {
    if t in s.awake {
      ResumePRefines(s, t);
    } else {
      EnterPRefines(s, t);
    }
  }

  // ----- Every history of one semaphore, whoever its clients are --------------------------------------

  datatype Event =
    | Enter(t: ThreadId)
    | Resume(t: ThreadId)
    | Release(woken: set<ThreadId>)
    | Spurious(t: ThreadId)

  predicate CanHappen(s: Semaphore, e: Event) {
    match e
    case Enter(t) => t !in s.Waiters()
    case Resume(t) => t in s.awake
    case Release(woken) => SignalWakes(s, woken)
    case Spurious(t) => t in s.asleep
  }

  function After(s: Semaphore, e: Event): Semaphore {
    match e
    case Enter(t) => EnterP(s, t)
    case Resume(t) => ResumeP(s, t)
    case Release(woken) => ApplyV(s, woken)
    case Spurious(t) => WakeSpuriously(s, t)
  }

  /** The credits an event gives: one for a V, minus one for a P that gets through. */
  function Gain(s: Semaphore, e: Event): int {
    match e
    case Enter(_) => if EnterBlocks(s) then 0 else -1
    case Resume(_) => if ResumeBlocks(s) then 0 else -1
    case Release(_) => 1
    case Spurious(_) => 0
  }

  predicate History(s: Semaphore, events: seq<Event>)
    decreases |events|
  {
    events == [] || (CanHappen(s, events[0]) && History(After(s, events[0]), events[1..]))
  }

  function Final(s: Semaphore, events: seq<Event>): Semaphore
    decreases |events|
  {
    if events == [] then s else Final(After(s, events[0]), events[1..])
  }

  function TotalGain(s: Semaphore, events: seq<Event>): int
    decreases |events|
  {
    if events == [] then 0 else Gain(s, events[0]) + TotalGain(After(s, events[0]), events[1..])
  }

  lemma EventRefines(s: Semaphore, e: Event)
    requires s.Inv() && CanHappen(s, e)
    ensures After(s, e).Inv()
    ensures After(s, e).Credits() == s.Credits() + Gain(s, e)
  {
    match e
    case Enter(t) => EnterPRefines(s, t);
    case Resume(t) => ResumePRefines(s, t);
    case Release(woken) => ApplyVRefines(s, woken);
    case Spurious(t) => WakeSpuriouslyRefines(s, t);
  }

  /** Over every history, completed Ps never outrun the initial value plus the Vs, and the difference is
      exactly the credits still on offer. */
  lemma {:induction false} HistoryRefinesCounter(s: Semaphore, events: seq<Event>)
    requires s.Inv() && History(s, events)
    ensures Final(s, events).Inv()
    ensures Final(s, events).Credits() == s.Credits() + TotalGain(s, events)
    ensures s.Credits() + TotalGain(s, events) >= 0
    decreases |events|
  {
    if events == [] {
    } else {
      EventRefines(s, events[0]);
      HistoryRefinesCounter(After(s, events[0]), events[1..]);
    }
  }

  // ----- The operations in place --------------------------------------------------------------------

  /** `value` and `wakeups` are the C fields; who sleeps and who is awake is the operating system's record. */
  class SemaphoreObject {
    var value: int
    var wakeups: int
    ghost var asleep: set<ThreadId>
    ghost var awake: set<ThreadId>

    ghost function State(): Semaphore
      reads this
    {
      Semaphore(value, wakeups, asleep, awake)
    }

    constructor (initial: int)
      ensures State() == Make(initial)
    {
      value := initial;
      wakeups := 0;
      asleep, awake := {}, {};
    }

    method Enter(ghost t: ThreadId) returns (mustWait: bool)
      modifies this
      ensures State() == EnterP(old(State()), t)
      ensures mustWait == EnterBlocks(old(State()))
    {
      value := value - 1;
      mustWait := value < 0;
      if mustWait {
        asleep := asleep + {t};
      }
    }

    method Resume(ghost t: ThreadId) returns (mustWait: bool)
      modifies this
      ensures State() == ResumeP(old(State()), t)
      ensures mustWait == ResumeBlocks(old(State()))
    {
      awake := awake - {t};
      mustWait := wakeups < 1;
      if mustWait {
        asleep := asleep + {t};
      } else {
        wakeups := wakeups - 1;
      }
    }

    method Release(ghost woken: set<ThreadId>)
      modifies this
      ensures State() == ApplyV(old(State()), woken)
    {
      value := value + 1;
      if value <= 0 {
        wakeups := wakeups + 1;
        asleep, awake := asleep - woken, awake + woken;
      }
    }
  }
}
