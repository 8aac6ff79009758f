/** How a simulation of elevator/improved ends: from which states it can still end, and that from the start on it
    can always hang as well. */
module ElevatorEnd {
  import opened ElevatorSystem
  import opened Riders
  import opened Sums

  // ----- Which states can still end ------------------------------------------------------------------

  /** Elevator `i` sleeps, or is about to. */
  predicate Dozes(w: World, i: nat)
    requires i < |w.cars|
  {
    i in w.monitor.asleep || AboutToWait(w.cars[i])
  }

  predicate NobodyDozes(w: World) {
    forall i :: 0 <= i < |w.cars| ==> !Dozes(w, i)
  }

  predicate MakerWillAdd(w: World) {
    w.maker.Making? || (w.maker.Checking? && !w.shared.expired)
  }

  /** Elevator `i` is awake and gets back to the head of its loop, and then to its last signal, without having to
      wait for people. */
  predicate Lively(w: World, i: nat) {
    && i < |w.cars| && i !in w.monitor.asleep
    && if w.shared.timesup then !AboutToWait(w.cars[i]) && WillSignal(w.cars[i])
       else match w.cars[i].pc
            case Looping | NobodyBoarded | Leaving => true
            case Choosing | Moving | Arriving | Dropping | Boarding => w.shared.waiting != []
            case _ => false
  }

  /** A state in which a signal or a person may still come for those who sleep, or nobody needs one. */
  predicate Alive(w: World) {
    || MakerWillAdd(w)
    || (exists i :: 0 <= i < |w.cars| && Lively(w, i))
    || (w.shared.timesup && NobodyDozes(w))
  }

  lemma FinishedAlive(w: World)
    requires Inv(w) && w.cars != [] && AllFinished(w)
    ensures Alive(w)
  {
    assert CarInv(w.shared, w.cars[0]);
  }

  // ----- A state that is not alive never ends --------------------------------------------------------

  lemma AwakeInVain(w: World, j: nat)
    requires Inv(w) && !Alive(w) && !w.shared.timesup && j < |w.cars| && j !in w.monitor.asleep
    ensures AboutToWait(w.cars[j]) || w.shared.waiting == []
  {
    assert CarInv(w.shared, w.cars[j]) && !Lively(w, j);
  }

  lemma NobodyWaits(w: World)
    requires Inv(w) && w.cars != [] && !Alive(w) && !w.shared.timesup
    ensures w.shared.waiting == []
  {
    if SomeAwake(w) {
      var j :| 0 <= j < |w.cars| && j !in w.monitor.asleep;
      AwakeInVain(w, j);
    }
  }

  /** Where elevator `i` of a state that is not alive is. */
  lemma HopelessFacts(w: World, i: nat)
    requires Inv(w) && !Alive(w) && i < |w.cars|
    ensures var c := w.cars[i];
            if w.shared.timesup then i in w.monitor.asleep || AboutToWait(c) || c.pc.Reporting? || c.pc.Finished?
            else
              && w.shared.waiting == []
              && (i in w.monitor.asleep || AboutToWait(c)
                  || c.pc.Choosing? || c.pc.Moving? || c.pc.Arriving? || c.pc.Dropping? || c.pc.Boarding?)
  {
    assert CarInv(w.shared, w.cars[i]) && !Lively(w, i);
    if !w.shared.timesup {
      NobodyWaits(w);
    }
  }

  lemma RunStaysHopeless(w: World, i: nat, woken: set<nat>)
    requires Inv(w) && !Alive(w) && CanStep(w, Run(i, woken))
    ensures !Alive(Next(w, Run(i, woken)))
  {
    hide PlaceOk, AllOnTheWay, NobodyArrived, StopIsNearest;
    hide DropStep, BoardStep, ChooseStep, ArriveStep, NextStop, RidersOf;
    hide Conserved, Counted, Numbered, NobodyForgotten;
    var w' := Next(w, Run(i, woken));
    HopelessFacts(w, i);
    StepShapes(w.shared, w.cars[i]);
    assert CarInv(w.shared, w.cars[i]);
    forall j | 0 <= j < |w'.cars|
      ensures !Lively(w', j)
    {
      HopelessFacts(w, j);
      assert !Lively(w, j);
    }
    if w.shared.timesup {
      var j :| 0 <= j < |w.cars| && Dozes(w, j);
      assert Dozes(w', j);
    }
  }

  lemma StaysHopeless(w: World, step: Step)
    requires Inv(w) && w.cars != [] && !Alive(w) && CanStep(w, step) && !step.Spurious?
    ensures !Alive(Next(w, step))
  {
    match step
    case Run(i, woken) => RunStaysHopeless(w, i, woken);
    case Make(_, _, _) => assert false;
    case _ => ClockStaysHopeless(w, step);
  }

  lemma ClockStaysHopeless(w: World, step: Step)
    requires Inv(w) && !Alive(w) && CanStep(w, step) && (step.Check? || step.Expire?)
    ensures !Alive(Next(w, step))
  {
    hide Inv;
    var w' := Next(w, step);
    forall j | 0 <= j < |w'.cars|
      ensures !Lively(w', j)
    {
      assert !Lively(w, j);
    }
    if w.shared.timesup {
      var j :| 0 <= j < |w.cars| && Dozes(w, j);
      assert Dozes(w', j);
    }
  }

  predicate NoSpurious(schedule: seq<Step>) {
    forall k :: 0 <= k < |schedule| ==> !schedule[k].Spurious?
  }

  lemma {:induction false} RunStaysHopelessForever(w: World, schedule: seq<Step>)
    requires Inv(w) && w.cars != [] && !Alive(w) && RunOf(w, schedule) && NoSpurious(schedule)
    ensures !Alive(After(w, schedule)) && !AllFinished(After(w, schedule))
    decreases |schedule|
  {
    if schedule == [] {
      if AllFinished(w) {
        FinishedAlive(w);
      }
    } else {
      assert !schedule[0].Spurious?;
      StaysHopeless(w, schedule[0]);
      StepInv(w, schedule[0]);
      RunStaysHopelessForever(Next(w, schedule[0]), schedule[1..]);
    }
  }

  // ----- A state that is alive can end ---------------------------------------------------------------

  /** How far an elevator is from its end, once the time is up. */
  function Rank(c: Car): int {
    match c.pc
    case Moving | Arriving => 7
    case Dropping | ChoosingWait | BoardingWait => 6
    case Boarding | NobodyBoarded | Choosing => 5
    case Looping => 4
    case Leaving => 3
    case Signalling => 2
    case Reporting => 1
    case Finished | Crashed => 0
  }

  /** A step that wakes everybody it can. */
  function RunAll(w: World, i: nat): Step { Run(i, w.monitor.asleep) }

  lemma AwakeCanStep(w: World, i: nat)
    requires Inv(w) && i < |w.cars| && i !in w.monitor.asleep && !w.cars[i].pc.Finished?
    requires w.monitor.holder == -1 || w.monitor.holder == i
    ensures CanStep(w, RunAll(w, i)) && Inv(Next(w, RunAll(w, i)))
    ensures |Next(w, RunAll(w, i)).cars| == |w.cars|
    ensures Next(w, RunAll(w, i)).cars == w.cars[i := Next(w, RunAll(w, i)).cars[i]]
  {
    NotCrashed(w, i);
    StepInv(w, RunAll(w, i));
    hide Inv;
  }

  lemma NotCrashed(w: World, i: nat)
    requires Inv(w) && i < |w.cars|
    ensures !w.cars[i].pc.Crashed? && CarInv(w.shared, w.cars[i]) && MonitorShape(w)
    ensures w.shared.timesup ==> w.shared.expired
  {
    assert CarInv(w.shared, w.cars[i]);
  }

  /** A step of an elevator after the time is up. */
  lemma TimesUpStep(s: Shared, c: Car)
    requires CarInv(s, c) && s.timesup && s.expired && !c.pc.Finished?
    ensures var (s', c') := CarStep(s, c);
            && Rank(c') < Rank(c) <= 7 && s'.timesup && s'.delivered == s.delivered && s'.waiting == s.waiting
            && !AboutToWait(c') && (WillSignal(c) && !c.pc.Signalling? ==> WillSignal(c'))
  {
    hide AllOnTheWay, NobodyArrived, StopIsNearest, DropStep, BoardStep, ChooseStep, ArriveStep, NextStop, RidersOf;
  }

  lemma HolderIs(w: World)
    requires Inv(w) && w.monitor.holder != -1
    ensures var h := w.monitor.holder;
            0 <= h < |w.cars| && AboutToWait(w.cars[h]) && h !in w.monitor.asleep
  {
  }

  lemma HolderSleeps(w: World)
    requires Inv(w) && w.monitor.holder != -1
    ensures 0 <= w.monitor.holder < |w.cars| && CanStep(w, RunAll(w, w.monitor.holder))
    ensures var h := w.monitor.holder; var w' := Next(w, RunAll(w, h));
            && Inv(w') && w'.monitor.holder == -1 && w'.shared == w.shared && w'.maker == w.maker
            && |w'.cars| == |w.cars| && w'.cars == w.cars[h := w'.cars[h]] && Rank(w'.cars[h]) < Rank(w.cars[h])
            && forall j :: 0 <= j < |w.cars| && Lively(w, j) ==> Lively(w', j)
  {
    HolderIs(w);
    AwakeCanStep(w, w.monitor.holder);
    WaitStep(w.shared, w.cars[w.monitor.holder]);
    hide Inv, CarStep, Rank;
  }

  lemma WaitStep(s: Shared, c: Car)
    requires AboutToWait(c)
    ensures CarStep(s, c).0 == s && NeedsMutex(CarStep(s, c).1) && Rank(CarStep(s, c).1) < Rank(c)
  {
  }

  /** What keeps a state alive once the time is up. */
  predicate Hope(w: World) {
    || w.maker.Making?
    || (exists i :: 0 <= i < |w.cars| && Lively(w, i))
    || NobodyDozes(w)
  }

  lemma LivelySteps(w: World, i: nat)
    requires Inv(w) && w.shared.timesup && w.monitor.holder == -1 && Lively(w, i)
    ensures CanStep(w, RunAll(w, i))
    ensures var w' := Next(w, RunAll(w, i));
            && Inv(w') && Hope(w') && w'.shared.timesup && |w'.cars| == |w.cars|
            && w'.cars == w.cars[i := w'.cars[i]] && Rank(w'.cars[i]) < Rank(w.cars[i])
  {
    AwakeCanStep(w, i);
    NotCrashed(w, i);
    TimesUpStep(w.shared, w.cars[i]);
    hide Inv, CarInv, CarStep, Rank;
    var w' := Next(w, RunAll(w, i));
    if w.cars[i].pc.Signalling? {
      assert NobodyDozes(w');
    } else {
      assert Lively(w', i);
    }
  }

  lemma ReportingSteps(w: World, i: nat)
    requires Inv(w) && w.shared.timesup && w.monitor.holder == -1 && NobodyDozes(w)
    requires i < |w.cars| && w.cars[i].pc.Reporting?
    ensures CanStep(w, RunAll(w, i))
    ensures var w' := Next(w, RunAll(w, i));
            && Inv(w') && NobodyDozes(w') && w'.shared.timesup && |w'.cars| == |w.cars|
            && w'.cars == w.cars[i := w'.cars[i]] && Rank(w'.cars[i]) < Rank(w.cars[i])
  {
    assert !Dozes(w, i);
    AwakeCanStep(w, i);
    NotCrashed(w, i);
    TimesUpStep(w.shared, w.cars[i]);
    hide Inv, CarInv, CarStep, Rank;
    var w' := Next(w, RunAll(w, i));
    forall j | 0 <= j < |w'.cars|
      ensures !Dozes(w', j)
    {
      assert !Dozes(w, j);
    }
  }

  lemma MakeWakesAll(w: World)
    requires Inv(w) && w.monitor.holder == -1 && w.maker.Making?
    ensures CanStep(w, Make(0, 1, w.monitor.asleep))
    ensures var w' := Next(w, Make(0, 1, w.monitor.asleep));
            && Inv(w') && NobodyDozes(w') && w'.cars == w.cars && w'.maker.Checking? && w'.monitor.holder == -1
            && w'.shared.waiting != [] && w'.shared.timesup == w.shared.timesup && w'.shared.expired == w.shared.expired
  {
    StepInv(w, Make(0, 1, w.monitor.asleep));
    hide CarInv, Conserved, Counted, Numbered;
  }

  lemma RankBounds(cars: seq<Car>)
    ensures 0 <= Sum(cars, Rank) <= 7 * |cars|
  {
    SumBounds(cars, Rank, 0, 7);
  }

  /** After the time is up. */
  lemma FinishAll(w: World) returns (schedule: seq<Step>)
    requires Inv(w) && w.cars != [] && w.shared.timesup && Hope(w)
    ensures RunOf(w, schedule) && NoSpurious(schedule) && AllFinished(After(w, schedule))
    decreases Sum(w.cars, Rank), if w.maker.Making? then 1 else 0
  {
    hide Inv, Lively, NobodyDozes, CanStep, Next;
    RankBounds(w.cars);
    if AllFinished(w) {
      RunEnds(w);
      return [];
    }
    var step, w' := NextToFinish(w);
    RankBounds(w'.cars);
    schedule := FinishAll(w');
    RunBack(w, [step] + schedule);
    schedule := [step] + schedule;
  }

  lemma NextToFinish(w: World) returns (step: Step, w': World)
    requires Inv(w) && w.cars != [] && w.shared.timesup && Hope(w) && !AllFinished(w)
    ensures !step.Spurious? && CanStep(w, step) && w' == Next(w, step)
    ensures Inv(w') && w'.cars != [] && w'.shared.timesup && Hope(w')
    ensures Sum(w'.cars, Rank) < Sum(w.cars, Rank)
            || (Sum(w'.cars, Rank) == Sum(w.cars, Rank) && w.maker.Making? && !w'.maker.Making?)
  {
    hide Inv, Lively, NobodyDozes, CanStep, Next, Sum, Rank;
    if w.monitor.holder != -1 {
      HolderSleeps(w);
      step := RunAll(w, w.monitor.holder);
      w' := Next(w, step);
      HopeStays(w, w');
      SumUpdate(w.cars, Rank, w.monitor.holder, w'.cars[w.monitor.holder]);
    } else if exists j :: 0 <= j < |w.cars| && Lively(w, j) {
      var i :| 0 <= i < |w.cars| && Lively(w, i);
      LivelySteps(w, i);
      step := RunAll(w, i);
      w' := Next(w, step);
      SumUpdate(w.cars, Rank, i, w'.cars[i]);
    } else if NobodyDozes(w) {
      var i :| 0 <= i < |w.cars| && !w.cars[i].pc.Finished?;
      OnlyReporting(w, i);
      ReportingSteps(w, i);
      step := RunAll(w, i);
      w' := Next(w, step);
      SumUpdate(w.cars, Rank, i, w'.cars[i]);
    } else {
      MakeWakesAll(w);
      step := Make(0, 1, w.monitor.asleep);
      w' := Next(w, step);
    }
  }

  lemma HopeStays(w: World, w': World)
    requires Inv(w) && Hope(w) && w.monitor.holder != -1 && w'.maker == w.maker && |w'.cars| == |w.cars|
    requires forall j :: 0 <= j < |w.cars| && Lively(w, j) ==> Lively(w', j)
    ensures Hope(w')
  {
    HolderIs(w);
    assert Dozes(w, w.monitor.holder);
  }

  lemma OnlyReporting(w: World, i: nat)
    requires w.shared.timesup && NobodyDozes(w) && i < |w.cars| && !w.cars[i].pc.Finished? && !Lively(w, i)
    ensures w.cars[i].pc.Reporting?
  {
    assert !Dozes(w, i);
  }

  /** How many steps elevator `c` is from its last but one signal, when it does not have to wait. */
  function StepsToLeave(c: Car): nat {
    match c.pc
    case Choosing => 7
    case Moving => 6
    case Arriving => 5
    case Dropping => 4
    case Boarding => 3
    case NobodyBoarded => 2
    case Looping => 1
    case _ => 0
  }

  /** Elevator `i` can go to the head of its loop, find the time expired and set `timesup`. */
  predicate CanLeaveLoop(w: World, i: nat) {
    Inv(w) && w.shared.expired && !w.shared.timesup && w.monitor.holder == -1 && Lively(w, i)
  }

  /** The steps of a lively elevator before the time is up. */
  lemma LivelyCarStep(s: Shared, c: Car)
    requires CarInv(s, c) && s.expired && !s.timesup
    requires match c.pc
             case Looping | NobodyBoarded | Leaving => true
             case Choosing | Moving | Arriving | Dropping | Boarding => s.waiting != []
             case _ => false
    ensures var (s', c') := CarStep(s, c);
            && !AboutToWait(c') && s'.expired
            && if c.pc.Leaving? then s'.timesup && c'.pc.Signalling?
               else
                 && !s'.timesup && StepsToLeave(c') < StepsToLeave(c)
                 && match c'.pc
                    case Looping | NobodyBoarded | Leaving => true
                    case Choosing | Moving | Arriving | Dropping | Boarding => s'.waiting != []
                    case _ => false
  {
    hide AllOnTheWay, NobodyArrived, StopIsNearest, DropStep, BoardStep, ChooseStep, ArriveStep, NextStop, RidersOf;
    StepShapes(s, c);
  }

  lemma NextToLeave(w: World, i: nat)
    requires CanLeaveLoop(w, i)
    ensures CanStep(w, RunAll(w, i))
    ensures var w' := Next(w, RunAll(w, i));
            && Inv(w') && |w'.cars| == |w.cars|
            && if w.cars[i].pc.Leaving? then w'.shared.timesup && Lively(w', i)
               else CanLeaveLoop(w', i) && StepsToLeave(w'.cars[i]) < StepsToLeave(w.cars[i])
  {
    AwakeCanStep(w, i);
    NotCrashed(w, i);
    LivelyCarStep(w.shared, w.cars[i]);
    hide Inv, CarInv, CarStep, StepsToLeave;
  }

  lemma ReachTimesup(w: World, i: nat) returns (schedule: seq<Step>)
    requires CanLeaveLoop(w, i)
    ensures RunOf(w, schedule) && NoSpurious(schedule)
    ensures var e := After(w, schedule); Inv(e) && e.shared.timesup && Lively(e, i)
    decreases StepsToLeave(w.cars[i])
  {
    hide CanStep, Next, StepsToLeave, Inv;
    var step := RunAll(w, i);
    NextToLeave(w, i);
    var rest;
    if w.cars[i].pc.Leaving? {
      RunEnds(Next(w, step));
      rest := [];
    } else {
      rest := ReachTimesup(Next(w, step), i);
    }
    RunBack(w, [step] + rest);
    schedule := [step] + rest;
  }

  /** With nobody asleep and people waiting every elevator is lively. */
  lemma AllLively(w: World, i: nat)
    requires Inv(w) && !w.shared.timesup && NobodyDozes(w) && w.shared.waiting != [] && i < |w.cars|
    ensures Lively(w, i)
  {
    NotCrashed(w, i);
    assert !Dozes(w, i);
  }

  lemma ExpireKeeps(w: World, i: nat)
    requires Inv(w) && !w.shared.expired && Lively(w, i)
    ensures CanStep(w, Expire)
    ensures var w' := Next(w, Expire);
            && Inv(w') && Lively(w', i) && w'.cars == w.cars && w'.monitor == w.monitor
            && w'.shared.expired && w'.shared.timesup == w.shared.timesup
  {
    StepInv(w, Expire);
    hide Inv;
  }

  /** From here on some elevator is lively: only the clock may have to expire. */
  lemma ThenExpire(w: World, i: nat) returns (schedule: seq<Step>)
    requires Inv(w) && w.cars != [] && !w.shared.timesup && w.monitor.holder == -1 && Lively(w, i)
    ensures RunOf(w, schedule) && NoSpurious(schedule) && AllFinished(After(w, schedule))
  {
    hide Inv, Lively, CanStep, Next, NoSpurious;
    if !w.shared.expired {
      ExpireKeeps(w, i);
      var w' := Next(w, Expire);
      schedule := LeaveAndFinish(w', i);
      NoSpuriousConcat([Expire], schedule);
      RunBack(w, [Expire] + schedule);
      schedule := [Expire] + schedule;
    } else {
      schedule := LeaveAndFinish(w, i);
    }
  }

  lemma LeaveAndFinish(w: World, i: nat) returns (schedule: seq<Step>)
    requires CanLeaveLoop(w, i) && w.cars != []
    ensures RunOf(w, schedule) && NoSpurious(schedule) && AllFinished(After(w, schedule))
  {
    var first := ReachTimesup(w, i);
    var e := After(w, first);
    hide Inv, Lively, CanStep, Next, NoSpurious, RunOf, After;
    var second := FinishAll(e);
    RunConcat(w, first, second);
    NoSpuriousConcat(first, second);
    schedule := first + second;
  }

  lemma NoSpuriousConcat(first: seq<Step>, second: seq<Step>)
    requires NoSpurious(first) && NoSpurious(second)
    ensures NoSpurious(first + second)
  {
  }

  /** The mutex is free, or its holder goes to sleep. */
  lemma FreeMutex(w: World) returns (schedule: seq<Step>, w': World)
    requires Inv(w) && w.cars != [] && !w.shared.timesup && Alive(w)
    ensures RunOf(w, schedule) && NoSpurious(schedule) && After(w, schedule) == w'
    ensures Inv(w') && w'.cars != [] && !w'.shared.timesup && Alive(w') && w'.monitor.holder == -1
  {
    if w.monitor.holder == -1 {
      RunEnds(w);
      schedule, w' := [], w;
    } else {
      HolderSleeps(w);
      var step := RunAll(w, w.monitor.holder);
      w' := Next(w, step);
      hide Inv, Lively, CanStep, Next;
      RunEnds(w');
      RunBack(w, [step]);
      schedule := [step];
    }
  }

  /** From a state that is alive, some schedule without spurious wakeups brings every elevator to its end. */
  lemma AliveCanEnd(w: World) returns (schedule: seq<Step>)
    requires Inv(w) && w.cars != [] && Alive(w)
    ensures RunOf(w, schedule) && NoSpurious(schedule) && AllFinished(After(w, schedule))
  {
    if w.shared.timesup {
      schedule := FinishAll(w);
    } else {
      var first, w' := FreeMutex(w);
      var second := AliveEndsFrom(w');
      RunConcat(w, first, second);
      NoSpuriousConcat(first, second);
      schedule := first + second;
    }
  }

  lemma AliveEndsFrom(w: World) returns (schedule: seq<Step>)
    requires Inv(w) && w.cars != [] && !w.shared.timesup && Alive(w) && w.monitor.holder == -1
    ensures RunOf(w, schedule) && NoSpurious(schedule) && AllFinished(After(w, schedule))
  {
    hide Inv, Lively, NobodyDozes, NoSpurious, CanStep, Next;
    if exists i :: 0 <= i < |w.cars| && Lively(w, i) {
      var i :| 0 <= i < |w.cars| && Lively(w, i);
      schedule := ThenExpire(w, i);
    } else if w.maker.Making? {
      schedule := MakeAndEnd(w);
    } else {
      CheckGoesOn(w);
      var w' := Next(w, Check);
      var rest := MakeAndEnd(w');
      RunBack(w, [Check] + rest);
      NoSpuriousConcat([Check], rest);
      schedule := [Check] + rest;
    }
  }

  lemma CheckGoesOn(w: World)
    requires Inv(w) && w.maker.Checking? && !w.shared.expired
    ensures CanStep(w, Check) && Inv(Next(w, Check)) && NoSpurious([Check])
    ensures Next(w, Check) == w.(maker := Making)
  {
    StepInv(w, Check);
    hide Inv;
  }

  lemma MakeAndEnd(w: World) returns (schedule: seq<Step>)
    requires Inv(w) && w.cars != [] && !w.shared.timesup && w.monitor.holder == -1 && w.maker.Making?
    ensures RunOf(w, schedule) && NoSpurious(schedule) && AllFinished(After(w, schedule))
  {
    var step := Make(0, 1, w.monitor.asleep);
    assert NoSpurious([step]);
    MakeWakesAll(w);
    hide Inv, Lively, NobodyDozes, NoSpurious, CanStep, Next;
    var w' := Next(w, step);
    AllLively(w', 0);
    var rest := ThenExpire(w', 0);
    RunBack(w, [step] + rest);
    NoSpuriousConcat([step], rest);
    schedule := [step] + rest;
  }

  /** The exact condition: without spurious wakeups, a simulation can still end if and only if its state is
      alive. */
  lemma CanEndIff(w: World)
    requires Inv(w) && w.cars != []
    ensures Alive(w)
            <==> exists schedule :: RunOf(w, schedule) && NoSpurious(schedule) && AllFinished(After(w, schedule))
  {
    if Alive(w) {
      var schedule := AliveCanEnd(w);
    } else {
      forall schedule | RunOf(w, schedule) && NoSpurious(schedule)
        ensures !AllFinished(After(w, schedule))
      {
        RunStaysHopelessForever(w, schedule);
      }
    }
  }

  // ----- States that cannot go on --------------------------------------------------------------------

  /** No thread can go on, unless it is woken for no reason. */
  ghost predicate NoStep(w: World) {
    forall step: Step :: !step.Spurious? ==> !CanStep(w, step)
  }

  lemma HolderCanMove(w: World)
    requires MonitorShape(w)
    ensures var h := w.monitor.holder;
            h != -1 ==> 0 <= h < |w.cars| && !NeedsMutex(w.cars[h]) && !w.cars[h].pc.Finished?
  {
  }

  lemma StoppedAlive(w: World)
    requires Inv(w) && w.cars != [] && w.maker.Stopped?
    requires forall i :: 0 <= i < |w.cars| ==> w.cars[i].pc.Finished? || i in w.monitor.asleep
    ensures AllFinished(w) <==> Alive(w)
  {
    if AllFinished(w) {
      FinishedAlive(w);
    } else {
      var i :| 0 <= i < |w.cars| && !w.cars[i].pc.Finished?;
      assert Dozes(w, i);
      hide Inv;
      forall j | 0 <= j < |w.cars|
        ensures !Lively(w, j)
      {
        assert w.cars[j].pc.Finished? || j in w.monitor.asleep;
      }
    }
  }

  /** The states that cannot go on. One that is not an end is of two kinds: either no elevator ever left its loop,
      and all sleep with nobody waiting; or one fell asleep after the time was up. */
  lemma EndOrStuck(w: World)
    requires Inv(w) && w.cars != []
    ensures NoStep(w) <==>
              w.maker.Stopped? && forall i :: 0 <= i < |w.cars| ==> w.cars[i].pc.Finished? || i in w.monitor.asleep
    ensures NoStep(w) ==> (AllFinished(w) <==> Alive(w))
    ensures NoStep(w) && !w.shared.timesup ==>
              w.shared.waiting == [] && forall i :: 0 <= i < |w.cars| ==> i in w.monitor.asleep
    ensures NoStep(w) && w.shared.timesup && !AllFinished(w) ==> w.monitor.sleptLate
  {
    assert forall i :: 0 <= i < |w.cars| ==> CarInv(w.shared, w.cars[i]);
    var m := w.monitor;
    if NoStep(w) {
      assert !CanStep(w, Expire) && !CanStep(w, Check);
      forall i | 0 <= i < |w.cars|
        ensures NeedsMutex(w.cars[i]) || w.cars[i].pc.Finished?
      {
        assert !CanStep(w, Run(i, m.asleep));
      }
      HolderCanMove(w);
      assert !CanStep(w, Make(0, 1, m.asleep));
      forall i | 0 <= i < |w.cars|
        ensures w.cars[i].pc.Finished? || i in m.asleep
      {
        assert !CanStep(w, Run(i, m.asleep));
      }
      StoppedAlive(w);
    }
  }

  /** Elevator `i` has left its loop, with nobody asleep to hear its signal. */
  function Left(w: World, i: nat): World
    requires i < |w.cars|
  {
    w.(shared := w.shared.(timesup := true, finished := w.shared.finished + w.cars[i].finished),
       cars := w.cars[i := w.cars[i].(pc := Finished)])
  }

  predicate CanLeave(w: World, i: nat) {
    i < |w.cars| && w.cars[i].pc.Looping? && w.shared.expired && w.monitor.asleep == {}
  }

  lemma LeaveSteps(w: World, i: nat)
    requires CanLeave(w, i)
    ensures var a := Run(i, {});
            && CanStep(w, a) && CanStep(Next(w, a), a) && CanStep(Next(Next(w, a), a), a)
            && CanStep(Next(Next(Next(w, a), a), a), a) && Next(Next(Next(Next(w, a), a), a), a) == Left(w, i)
  {
    hide DropStep, BoardStep, ArriveStep, ChooseStep;
  }

  lemma LeaveThen(w: World, i: nat, rest: seq<Step>)
    requires CanLeave(w, i) && RunOf(Left(w, i), rest)
    ensures var schedule := [Run(i, {}), Run(i, {}), Run(i, {}), Run(i, {})] + rest;
            RunOf(w, schedule) && After(w, schedule) == After(Left(w, i), rest)
  {
    hide After, RunOf, CanStep, Next, Left, CanLeave;
    var a := Run(i, {});
    LeaveSteps(w, i);
    var w1 := Next(w, a);
    var w2 := Next(w1, a);
    var w3 := Next(w2, a);
    assert ([a, a, a, a] + rest)[1..] == [a, a, a] + rest && ([a, a, a] + rest)[1..] == [a, a] + rest;
    assert ([a, a] + rest)[1..] == [a] + rest && ([a] + rest)[1..] == rest;
    RunBack(w3, [a] + rest);
    RunBack(w2, [a, a] + rest);
    RunBack(w1, [a, a, a] + rest);
    RunBack(w, [a, a, a, a] + rest);
  }

  // ----- The hang, for any number of elevators and floors --------------------------------------------

  /** The first `k` elevators sleep, the others have not started. */
  ghost predicate FirstAsleep(w: World, k: nat) {
    && w.shared.floors >= 2
    && w.shared == Shared(w.shared.floors, [], false, false, 0, 0, [], [])
    && w.maker == Checking && w.monitor.holder == -1 && k <= |w.cars|
    && (forall i :: 0 <= i < |w.cars| ==> w.cars[i] == if i < k then NEW_CAR.(pc := Choosing) else NEW_CAR)
    && (forall i: nat :: i in w.monitor.asleep <==> i < k)
  }

  /** Three steps and elevator `k` sleeps too. */
  lemma OneMoreAsleep(w: World, k: nat)
    requires FirstAsleep(w, k) && k < |w.cars|
    ensures CanStep(w, RunAll(w, k))
    ensures var w1 := Next(w, RunAll(w, k));
            && CanStep(w1, RunAll(w1, k))
            && var w2 := Next(w1, RunAll(w1, k));
               && CanStep(w2, RunAll(w2, k))
               && FirstAsleep(Next(w2, RunAll(w2, k)), k + 1) && |Next(w2, RunAll(w2, k)).cars| == |w.cars|
  {
    hide DropStep, BoardStep, ArriveStep, ChooseStep;
  }

  lemma AllFallAsleep(w: World, k: nat) returns (schedule: seq<Step>)
    requires FirstAsleep(w, k) && w.cars != []
    ensures RunOf(w, schedule) && NoSpurious(schedule)
    ensures var e := After(w, schedule); NoStep(e) && !AllFinished(e) && !e.shared.timesup
    decreases |w.cars| - k
  {
    if k == |w.cars| {
      schedule := TimeRunsOut(w);
    } else {
      OneMoreAsleep(w, k);
      hide CanStep, Next, FirstAsleep;
      var w1 := Next(w, RunAll(w, k));
      var w2 := Next(w1, RunAll(w1, k));
      var rest := AllFallAsleep(Next(w2, RunAll(w2, k)), k + 1);
      RunBack(w2, [RunAll(w2, k)] + rest);
      RunBack(w1, [RunAll(w1, k)] + ([RunAll(w2, k)] + rest));
      schedule := [RunAll(w, k)] + ([RunAll(w1, k)] + ([RunAll(w2, k)] + rest));
      RunBack(w, schedule);
    }
  }

  /** The clock expires and the maker stops. */
  lemma TimeRunsOut(w: World) returns (schedule: seq<Step>)
    requires FirstAsleep(w, |w.cars|) && w.cars != []
    ensures RunOf(w, schedule) && NoSpurious(schedule)
    ensures var e := After(w, schedule); NoStep(e) && !AllFinished(e) && !e.shared.timesup
  {
    var w1 := Next(w, Expire);
    var w2 := Next(w1, Check);
    RunEnds(w2);
    RunBack(w1, [Check]);
    schedule := [Expire] + [Check];
    RunBack(w, schedule);
    assert !w2.cars[0].pc.Finished?;
  }

  /** Whatever the numbers of elevators and floors, a simulation can hang: every elevator is waiting for people when
      the time is up. */
  lemma CanGetStuck(w: World) returns (schedule: seq<Step>)
    requires Initial(w) && w.cars != []
    ensures RunOf(w, schedule) && NoSpurious(schedule)
    ensures var e := After(w, schedule); NoStep(e) && !AllFinished(e) && !e.shared.timesup
  {
    schedule := AllFallAsleep(w, 0);
  }

  /** Elevator 0 has tested `timesup` and holds the mutex, the time has expired, the next elevators up to `k` have
      finished, and the others have not started. */
  ghost predicate OthersLeave(w: World, k: nat) {
    && 1 <= k <= |w.cars| && w.shared.expired && w.shared.waiting == [] && (k > 1 ==> w.shared.timesup)
    && w.maker == Checking && w.monitor == Monitor(0, {}, false)
    && w.cars[0] == NEW_CAR.(pc := ChoosingWait)
    && (forall i :: 1 <= i < k ==> w.cars[i].pc.Finished?)
    && (forall i :: k <= i < |w.cars| ==> w.cars[i] == NEW_CAR)
  }

  lemma AllLeave(w: World, k: nat) returns (schedule: seq<Step>)
    requires OthersLeave(w, k) && |w.cars| >= 2
    ensures RunOf(w, schedule) && NoSpurious(schedule)
    ensures var e := After(w, schedule); NoStep(e) && !AllFinished(e) && e.shared.timesup
    decreases |w.cars| - k
  {
    if k == |w.cars| {
      schedule := SleepsTooLate(w);
    } else {
      var rest := AllLeave(Left(w, k), k + 1);
      LeaveThen(w, k, rest);
      schedule := [Run(k, {}), Run(k, {}), Run(k, {}), Run(k, {})] + rest;
      NoSpuriousConcat([Run(k, {}), Run(k, {}), Run(k, {}), Run(k, {})], rest);
    }
  }

  lemma SleepsTooLate(w: World) returns (schedule: seq<Step>)
    requires OthersLeave(w, |w.cars|) && |w.cars| >= 2
    ensures RunOf(w, schedule) && NoSpurious(schedule)
    ensures var e := After(w, schedule); NoStep(e) && !AllFinished(e) && e.shared.timesup
  {
    var w1 := Next(w, Run(0, {}));
    var w2 := Next(w1, Check);
    RunEnds(w2);
    RunBack(w1, [Check]);
    schedule := [Run(0, {})] + [Check];
    RunBack(w, schedule);
    assert !w2.cars[0].pc.Finished?;
  }

  /** Whatever the numbers, with two elevators or more a wakeup can be lost: an elevator has tested `timesup` and
      holds the mutex; the others set `timesup`, which needs no mutex, and their signals find nobody asleep; then
      the first one falls asleep. */
  lemma CanLoseWakeup(w: World) returns (schedule: seq<Step>)
    requires Initial(w) && |w.cars| >= 2
    ensures RunOf(w, schedule) && NoSpurious(schedule)
    ensures var e := After(w, schedule); NoStep(e) && !AllFinished(e) && e.shared.timesup
  {
    hide DropStep, BoardStep, ArriveStep, ChooseStep;
    var a := Run(0, {});
    var w1 := Next(w, a);
    var w2 := Next(w1, a);
    var w3 := Next(w2, Expire);
    var rest := AllLeave(w3, 1);
    hide CanStep, Next;
    RunBack(w2, [Expire] + rest);
    RunBack(w1, [a] + ([Expire] + rest));
    schedule := [a] + ([a] + ([Expire] + rest));
    RunBack(w, schedule);
  }

  // ----- After the time is up ------------------------------------------------------------------------

  /** Once the time is up, an elevator that is unfinished can go on, unless it is asleep, or waits for the mutex that
      another elevator can give back. */
  lemma TimesUpGoesOn(w: World, i: nat)
    requires Inv(w) && w.shared.timesup && i < |w.cars| && !w.cars[i].pc.Finished?
    ensures i in w.monitor.asleep || CanStep(w, RunAll(w, i))
            || (0 <= w.monitor.holder < |w.cars| && CanStep(w, RunAll(w, w.monitor.holder)))
  {
    NotCrashed(w, i);
    if w.monitor.holder != -1 {
      HolderSleeps(w);
    }
  }

  /** The steps that elevators make in a schedule. */
  function CarSteps(schedule: seq<Step>): nat {
    if schedule == [] then 0 else (if schedule[0].Run? then 1 else 0) + CarSteps(schedule[1..])
  }

  /** Once the time is up, all elevators together make at most seven steps each, whatever the schedule and the
      spurious wakeups, and deliver nobody any more. */
  lemma TimesUpEndsAll(w: World, schedule: seq<Step>)
    requires Inv(w) && w.shared.timesup && RunOf(w, schedule)
    ensures CarSteps(schedule) <= 7 * |w.cars|
    ensures After(w, schedule).shared.timesup && After(w, schedule).shared.delivered == w.shared.delivered
  {
    RankFalls(w, schedule);
    RankBounds(w.cars);
    RankBounds(After(w, schedule).cars);
  }

  lemma {:induction false} RankFalls(w: World, schedule: seq<Step>)
    requires Inv(w) && w.shared.timesup && RunOf(w, schedule)
    ensures var e := After(w, schedule);
            && CarSteps(schedule) + Sum(e.cars, Rank) <= Sum(w.cars, Rank)
            && e.shared.timesup && e.shared.delivered == w.shared.delivered
    decreases |schedule|
  {
    hide Inv, Rank, CanStep, Next;
    if schedule == [] {
    } else {
      StepInv(w, schedule[0]);
      TimesUpRank(w, schedule[0]);
      RankFalls(Next(w, schedule[0]), schedule[1..]);
    }
  }

  lemma TimesUpRank(w: World, step: Step)
    requires Inv(w) && w.shared.timesup && CanStep(w, step)
    ensures var w' := Next(w, step);
            && w'.shared.timesup && w'.shared.delivered == w.shared.delivered
            && Sum(w'.cars, Rank) + (if step.Run? then 1 else 0) <= Sum(w.cars, Rank)
  {
    if step.Run? {
      NotCrashed(w, step.car);
      TimesUpStep(w.shared, w.cars[step.car]);
      SumUpdate(w.cars, Rank, step.car, Next(w, step).cars[step.car]);
    }
    hide Inv, Rank, CarStep;
  }
}
