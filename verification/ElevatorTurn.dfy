/** The linked lists of `ElevatorLists` do what the steps of `ElevatorSystem` say: each call, and a whole turn of
    the loop of `elevator_entry` when no other thread comes between. */
module ElevatorTurn {
  import opened DoublyLinked
  import opened Riders
  import opened ElevatorLists
  import opened System = ElevatorSystem

  /** The lists, the floor and the two local variables of the thread are those of the elevator `c`. */
  ghost predicate Matches(e: Elevator, queue: PersonQueue, dest: int, direction: int, s: Shared, c: Car)
    reads e`currentFloor, e`aboard, queue`people, queue`timesup
  {
    && e.currentFloor == c.floor && Items(e.aboard) == RidersOf(c.aboard)
    && dest == c.dest && direction == c.direction
    && Items(queue.people) == s.waiting && queue.timesup == s.timesup
  }

  ghost predicate BothOk(s: Shared, c: Car) { SharedInv(s) && CarInv(s, c) }

  /** The two lists are in good order and share nobody. */
  ghost predicate ListsOk(e: Elevator, queue: PersonQueue)
    reads e, e.aboard, queue, queue.people
  {
    e.Valid() && queue.Valid() && Apart(e.aboard, queue.people)
  }

  lemma NobodyAboardIff(e: Elevator, c: Car)
    requires e.Valid() && Items(e.aboard) == RidersOf(c.aboard)
    ensures e.people == null <==> c.aboard == []
  {
    assert |e.aboard| == |Items(e.aboard)| == |c.aboard|;
  }

  method ChooseTurn(e: Elevator, queue: PersonQueue, nFloors: int, dest0: int, direction0: int,
                    ghost s: Shared, ghost c: Car)
    returns (dest: int, direction: int)
    requires ListsOk(e, queue) && Matches(e, queue, dest0, direction0, s, c) && BothOk(s, c)
    requires c.pc.Choosing? && (s.timesup || s.waiting != []) && nFloors == s.floors
    ensures var (s', c') := CarStep(s, c); Matches(e, queue, dest, direction, s', c')
  {
    assert s.waiting != [] ==> queue.people != [];
    dest, direction := e.MakeSureDirection(queue, nFloors, direction0);
  }

  lemma MoveFacts(s: Shared, c: Car)
    requires BothOk(s, c) && c.pc.Moving? && !s.timesup
    ensures c.dest >= 0 && CarStep(s, c) == (s, c.(pc := Arriving))
    ensures var (s', c') := CarStep(s, c.(pc := Arriving));
            && s' == s && c'.pc.Dropping? && c'.floor == c'.dest == c.dest && c'.direction == c.direction
            && RidersOf(c'.aboard) == RidersOf(c.aboard)
  {
    RidersOfCarry(c.aboard, Abs(c.dest - c.floor));
    hide RidersOf, AllOnTheWay, NobodyArrived, StopIsNearest;
  }

  /** Both readings of `timesup` in `move_to_dest_floor` give the same, as no other thread comes between. */
  method MoveTurn(e: Elevator, queue: PersonQueue, dest: int, ghost direction: int, ghost s: Shared, ghost c: Car)
    requires ListsOk(e, queue) && Matches(e, queue, dest, direction, s, c) && BothOk(s, c)
    requires c.pc.Moving? && !s.timesup
    modifies e`currentFloor
    ensures ListsOk(e, queue)
    ensures CarStep(s, c) == (s, c.(pc := Arriving))
    ensures var (s', c') := CarStep(s, c.(pc := Arriving)); Matches(e, queue, dest, direction, s', c')
  {
    MoveFacts(s, c);
    hide BothOk, CarStep, RidersOf, Items;
    e.MoveToDestFloor(dest, queue.timesup, queue.timesup);
  }

  lemma DropFacts(s: Shared, c: Car)
    requires c.pc.Dropping?
    ensures var (s', c') := CarStep(s, c);
            var dropped := if s.timesup then [] else Removed(RidersOf(c.aboard), ArrivedAt(c.floor));
            && c'.pc.Boarding? && c'.floor == c.floor && c'.direction == c.direction && c'.dest == c.dest
            && s'.waiting == s.waiting && s'.timesup == s.timesup && s'.floors == s.floors
            && RidersOf(c'.aboard)
               == (if s.timesup then RidersOf(c.aboard) else Kept(RidersOf(c.aboard), ArrivedAt(c.floor)))
            && |dropped| == c'.finished - c.finished == |s'.delivered| - |s.delivered|
  {
    hide Kept, Removed, RidersOf;
    DropsArrivals(c.aboard, c.floor);
    RidersOfSize(Removed(c.aboard, Leaves(c.floor)));
  }

  /** `drop_people` on the list is the step `DropStep`. */
  method DropTurn(e: Elevator, queue: PersonQueue, ghost dest: int, ghost direction: int, ghost s: Shared, ghost c: Car)
    returns (nDropped: nat)
    requires ListsOk(e, queue) && Matches(e, queue, dest, direction, s, c) && c.pc.Dropping?
    modifies e`nPeople, e`people, e`aboard, e.aboard
    ensures ListsOk(e, queue) && Among(e.aboard, old(e.aboard))
    ensures var (s', c') := CarStep(s, c);
            && Matches(e, queue, dest, direction, s', c')
            && nDropped == c'.finished - c.finished == |s'.delivered| - |s.delivered|
  {
    hide CarStep, Kept, Removed, Items, RidersOf, Linked, Distinct, Among;
    DropFacts(s, c);
    ghost var was, rest := e.aboard, queue.people;
    ghost var dropped;
    nDropped, dropped := e.DropPeople(queue.timesup);
    StillApart(was, e.aboard, rest);
  }

  lemma RidersOfSize(ps: seq<Passenger>)
    ensures |RidersOf(ps)| == |ps|
  {
  }

  lemma StillApart(s: seq<Person>, s': seq<Person>, t: seq<Person>)
    requires Apart(s, t) && Among(s', s)
    ensures Apart(s', t)
  {
    forall i, j | 0 <= i < |s'| && 0 <= j < |t|
      ensures s'[i] != t[j]
    {
      var k :| 0 <= k < |s| && s[k] == s'[i];
    }
  }

  /** What an elevator that lets people in does alone: one step, and a second one if nobody got on. */
  function BoardSteps(s: Shared, c: Car): (Shared, Car)
    requires c.pc.Boarding?
  {
    var (s', c') := CarStep(s, c);
    if c'.pc.NobodyBoarded? then CarStep(s', c') else (s', c')
  }

  lemma BoardFacts(s: Shared, c: Car)
    requires BothOk(s, c) && c.pc.Boarding? && (s.timesup || s.waiting != [])
    ensures c.direction != 0 && c.floor >= 0
    ensures var (s', c') := BoardSteps(s, c);
            && c'.pc.Looping? && c'.floor == c.floor && c'.direction == c.direction && s'.timesup == s.timesup
            && var going := Riders.Boarding(c.floor, c.direction);
               var boarded := if s.timesup then [] else Removed(s.waiting, going);
               && s'.waiting == (if s.timesup then s.waiting else Kept(s.waiting, going))
               && RidersOf(c'.aboard) == RidersOf(c.aboard) + boarded
               && c'.dest == if s.timesup then c.dest else NextStop(RidersOf(c'.aboard), c.floor, s.floors)
  {
    hide Kept, Removed, NextStop, RidersOf, AllOnTheWay, NobodyArrived, StopIsNearest, Riders.Boarding;
    var boarding := Removed(s.waiting, Riders.Boarding(c.floor, c.direction));
    RidersOfConcat(c.aboard, Enter(boarding));
    RidersOfEnter(boarding);
    assert RidersOf(c.aboard) + [] == RidersOf(c.aboard);
  }

  /** `letin_people` on the lists is the step `BoardStep`, with the second reading of `timesup`. */
  method BoardTurn(e: Elevator, queue: PersonQueue, nFloors: int, dest0: int, direction: int,
                   ghost s: Shared, ghost c: Car)
    returns (dest: int)
    requires ListsOk(e, queue) && Matches(e, queue, dest0, direction, s, c) && BothOk(s, c)
    requires c.pc.Boarding? && (s.timesup || s.waiting != []) && nFloors == s.floors
    modifies e`nPeople, e`people, e`aboard, e.aboard
    modifies queue`number, queue`head, queue`tail, queue`people, queue.people
    ensures ListsOk(e, queue)
    ensures Among(queue.people, old(queue.people)) && Among(e.aboard, old(e.aboard) + old(queue.people))
    ensures var (s', c') := BoardSteps(s, c); Matches(e, queue, dest, direction, s', c')
  {
    hide BothOk, BoardSteps, Kept, Removed, RidersOf, NextStop, Items, Riders.Boarding;
    hide Elevator.Valid, PersonQueue.Valid, Apart, Among;
    QueueNotEmpty(queue, s);
    BoardFacts(s, c);
    ghost var boarded;
    var status;
    status, dest, boarded := e.LetinPeople(queue, direction, dest0, nFloors, queue.timesup);
  }

  lemma QueueNotEmpty(queue: PersonQueue, s: Shared)
    requires Items(queue.people) == s.waiting
    ensures s.waiting != [] ==> queue.people != []
  {
  }

  // ----- A whole turn --------------------------------------------------------------------------------

  /** `n` steps of one elevator alone. */
  function Steps(s: Shared, c: Car, n: nat): (Shared, Car) {
    if n == 0 then (s, c) else
      var (s', c') := Steps(s, c, n - 1);
      if CanMove(c') then CarStep(s', c') else (s', c')
  }

  /** One more step after `n`, from `(t, d)`. */
  lemma StepMore(s: Shared, c: Car, n: nat, t: Shared, d: Car)
    requires Steps(s, c, n) == (t, d) && BothOk(t, d) && CanMove(d)
    ensures Steps(s, c, n + 1) == CarStep(t, d) && BothOk(CarStep(t, d).0, CarStep(t, d).1)
  {
    CarStepInv(t, d);
  }

  lemma LoopFacts(s: Shared, c: Car)
    requires BothOk(s, c) && c.pc.Looping? && !s.expired
    ensures !s.timesup && CarStep(s, c) == (s, c.(pc := if c.aboard == [] then Choosing else Moving))
  {
  }

  lemma ChooseGoes(s: Shared, c: Car)
    requires BothOk(s, c) && c.pc.Choosing? && !s.timesup && s.waiting != []
    ensures CarStep(s, c).0 == s && CarStep(s, c).1.pc.Moving?
  {
    ChooseFacts(s.waiting, c.floor, s.floors);
    hide Choose;
  }

  /** The steps of letting people in, counted. */
  lemma BoardMore(s: Shared, c: Car, n: nat, t: Shared, d: Car) returns (k: nat)
    requires Steps(s, c, n) == (t, d) && BothOk(t, d) && d.pc.Boarding? && !t.timesup && t.waiting != []
    ensures k > n && Steps(s, c, k) == BoardSteps(t, d) && BothOk(BoardSteps(t, d).0, BoardSteps(t, d).1)
    ensures BoardSteps(t, d).0.delivered == t.delivered
  {
    hide Kept, Removed, NextStop, RidersOf, Riders.Boarding, BothOk;
    StepMore(s, c, n, t, d);
    var (t', d') := CarStep(t, d);
    k := n + 1;
    if d'.pc.NobodyBoarded? {
      StepMore(s, c, n + 1, t', d');
      k := n + 2;
    }
    StayDelivered(t, d);
  }

  lemma StayDelivered(s: Shared, c: Car)
    requires c.pc.Boarding?
    ensures BoardSteps(s, c).0.delivered == s.delivered
  {
    hide Kept, Removed, NextStop, RidersOf, Riders.Boarding;
  }

  lemma {:induction false} StepsCompose(s: Shared, c: Car, m: nat, n: nat)
    ensures var (t, d) := Steps(s, c, m); Steps(s, c, m + n) == Steps(t, d, n)
  {
    if n == 0 {
    } else {
      hide CarStep, CanMove;
      StepsCompose(s, c, m, n - 1);
    }
  }

  /** Moving, dropping and letting in. */
  method RideTurn(e: Elevator, queue: PersonQueue, nFloors: int, dest0: int, direction: int,
                  ghost s: Shared, ghost c: Car)
    returns (dest: int, nDropped: nat, ghost n: nat)
    requires ListsOk(e, queue) && Matches(e, queue, dest0, direction, s, c) && BothOk(s, c)
    requires c.pc.Moving? && !s.timesup && s.waiting != [] && nFloors == s.floors
    modifies e`currentFloor, e`nPeople, e`people, e`aboard, e.aboard
    modifies queue`number, queue`head, queue`tail, queue`people, queue.people
    ensures ListsOk(e, queue)
    ensures Among(queue.people, old(queue.people)) && Among(e.aboard, old(e.aboard) + old(queue.people))
    ensures var (s', c') := Steps(s, c, n);
            && n > 0 && c'.pc.Looping? && BothOk(s', c') && Matches(e, queue, dest, direction, s', c')
            && nDropped == |s'.delivered| - |s.delivered|
  {
    hide BothOk, CarStep, Steps, BoardSteps, CanMove, Items, RidersOf, Elevator.Valid, PersonQueue.Valid;
    hide Kept, Removed, NextStop, Linked, Distinct, Apart;
    ghost var d, was := c.(pc := Arriving), e.aboard;
    StepsNone(s, c);
    MoveTurn(e, queue, dest0, direction, s, c);
    MoveFacts(s, c);
    CanGoOn(c);
    StepMore(s, c, 0, s, c);
    CanGoOn(d);
    StepMore(s, c, 1, s, d);
    d := CarStep(s, d).1;
    CanGoOn(d);
    StepMore(s, c, 2, s, d);
    DropFacts(s, d);
    nDropped := DropTurn(e, queue, dest0, direction, s, d);
    ghost var t := CarStep(s, d).0;
    d := CarStep(s, d).1;
    ghost var left, waiting := e.aboard, queue.people;
    n := BoardMore(s, c, 3, t, d);
    BoardFacts(t, d);
    dest := BoardTurn(e, queue, nFloors, dest0, direction, t, d);
    AmongBoth(e.aboard, left, was, waiting);
  }

  /** One turn of the loop of `elevator_entry` on the lists is a number of steps of the elevator, from the head of
      the loop to its head. */
  method Turn(e: Elevator, queue: PersonQueue, nFloors: int, dest0: int, direction0: int,
              ghost s: Shared, ghost c: Car)
    returns (dest: int, direction: int, nDropped: nat, ghost n: nat)
    requires ListsOk(e, queue) && Matches(e, queue, dest0, direction0, s, c) && BothOk(s, c)
    requires c.pc.Looping? && !s.expired && s.waiting != [] && nFloors == s.floors
    modifies e`currentFloor, e`nPeople, e`people, e`aboard, e.aboard
    modifies queue`number, queue`head, queue`tail, queue`people, queue.people
    ensures ListsOk(e, queue)
    ensures Among(queue.people, old(queue.people)) && Among(e.aboard, old(e.aboard) + old(queue.people))
    ensures var (s', c') := Steps(s, c, n);
            && n > 0 && c'.pc.Looping? && BothOk(s', c') && Matches(e, queue, dest, direction, s', c')
            && nDropped == |s'.delivered| - |s.delivered|
  {
    hide BothOk, CarStep, Steps, BoardSteps, CanMove, Items, RidersOf, Elevator.Valid, PersonQueue.Valid, Among;
    StepsNone(s, c);
    LoopFacts(s, c);
    CanGoOn(c);
    StepMore(s, c, 0, s, c);
    NobodyAboardIff(e, c);
    ghost var d, m := CarStep(s, c).1, 1;
    dest, direction := dest0, direction0;
    if e.people == null {
      dest, direction := ChooseTurn(e, queue, nFloors, dest, direction, s, d);
      ChooseGoes(s, d);
      CanGoOn(d);
      StepMore(s, c, 1, s, d);
      d, m := CarStep(s, d).1, 2;
    }
    dest, nDropped, n := RideTurn(e, queue, nFloors, dest, direction, s, d);
    StepsCompose(s, c, m, n);
    n := m + n;
  }

  /** `PersonQueue_add_person` on the linked queue is what the step of the people maker does: see `MakeFacts`. */
  method MakeTurn(queue: PersonQueue, person: Person, ghost s: Shared) returns (status: int)
    requires queue.Valid() && Apart(queue.people, [person]) && person.prev == null && person.next == null
    requires Items(queue.people) == s.waiting
    modifies queue`number, queue`head, queue`tail, queue`people, person, queue.people
    ensures queue.Valid() && status == 1
    ensures Items(queue.people) == AddPerson(s, person.item).waiting == s.waiting + [person.item]
  {
    hide Items, Apart, PersonQueue.Valid;
    ItemsFacts(queue.people, [person]);
    ItemsOne(person);
    status := queue.AddPerson(person);
  }

  lemma MakeFacts(w: World, from: int, to: int, woken: set<nat>)
    requires CanStep(w, Make(from, to, woken))
    ensures var s, r := Next(w, Make(from, to, woken)).shared, Rider(|w.shared.added|, from, to);
            w.shared.started == |w.shared.added| ==>
              && s == AddPerson(w.shared, r) && s.waiting == w.shared.waiting + [r] && s.timesup == w.shared.timesup
              && s.added == w.shared.added + [r] && s.started == |s.added|
  {
  }

  lemma ItemsOne(person: Person)
    ensures Items([person]) == [person.item]
  {
  }

  // ----- What an empty elevator achieves -------------------------------------------------------------

  /** The first of those who wait nearest to `floor`. */
  predicate IsNearest(waiting: seq<Rider>, floor: int, k: nat) {
    && k < |waiting|
    && (forall j :: 0 <= j < |waiting| ==> Abs(waiting[k].from - floor) <= Abs(waiting[j].from - floor))
    && forall j :: 0 <= j < k ==> Abs(waiting[k].from - floor) < Abs(waiting[j].from - floor)
  }

  /** An empty elevator at the head of its loop, with people waiting and time left. */
  ghost predicate CanPickUp(s: Shared, c: Car) {
    BothOk(s, c) && c.pc.Looping? && !s.expired && c.aboard == [] && s.waiting != []
  }

  /** The first four steps of an empty elevator: it is on the floor of person `k`, about to drop nobody. */
  lemma GoesToNearest(s: Shared, c: Car) returns (k: nat)
    requires CanPickUp(s, c)
    ensures IsNearest(s.waiting, c.floor, k)
    ensures var (s', c') := Steps(s, c, 4); var r := s.waiting[k];
            && s' == s && BothOk(s', c') && c'.pc.Dropping? && c'.aboard == [] && c'.floor == r.from
            && c'.direction == (if (if r.from == c.floor then r.to else r.from) > c.floor then 1 else -1)
  {
    hide StopIsNearest, Choose, OnTheWay;
    k := ChooseNearest(s.waiting, c.floor, s.floors);
    LoopFacts(s, c);
    ChooseGoes(s, c.(pc := Choosing));
    var c2 := ChooseStep(s, c.(pc := Choosing));
    StepsNone(s, c);
    StepMore(s, c, 0, s, c);
    StepMore(s, c, 1, s, c.(pc := Choosing));
    StepMore(s, c, 2, s, c2);
    StepMore(s, c, 3, s, c2.(pc := Arriving));
  }

  lemma DropsNobody(s: Shared, c: Car)
    requires c.pc.Dropping? && c.aboard == [] && !s.timesup
    ensures CarStep(s, c) == (s, c.(pc := Boarding))
  {
    assert s.delivered + [] == s.delivered;
  }

  /** Some of `waiting` are on the floor and want to go on in the direction. */
  predicate SomebodyGoes(waiting: seq<Rider>, floor: int, direction: int) {
    exists r :: r in waiting && r.from == floor && Ahead(floor, r.to, direction)
  }

  /** What letting people into an empty elevator does. */
  lemma EmptyBoards(s: Shared, c: Car)
    requires BothOk(s, c) && c.pc.Boarding? && c.aboard == [] && !s.timesup && s.waiting != []
    ensures var (s', c') := BoardSteps(s, c);
            && c'.pc.Looping? && c'.floor == c.floor && c'.direction == c.direction
            && s'.expired == s.expired && s'.delivered == s.delivered
            && (c'.aboard == [] ==> s'.waiting == s.waiting)
            && (c'.aboard != [] <==> SomebodyGoes(s.waiting, c.floor, c.direction))
            && forall r :: r in s.waiting && r.from == c.floor && Ahead(c.floor, r.to, c.direction) ==>
                 Passenger(r, 0) in c'.aboard
  {
    hide Kept, Removed, NextStop, RidersOf, AllOnTheWay, NobodyArrived, StopIsNearest, Riders.Boarding;
    var going := Riders.Boarding(c.floor, c.direction);
    BoardingSplits(s.waiting, c.floor, c.direction);
    NobodyLeftBehind(s, c);
    RemovalConserves(s.waiting, going);
    if Removed(s.waiting, going) == [] {
      NothingRemoved(s.waiting, going);
    } else {
      var r := Removed(s.waiting, going)[0];
      assert r in s.waiting && r.from == c.floor && Ahead(c.floor, r.to, c.direction);
    }
  }

  lemma {:induction false} NothingRemoved<T>(s: seq<T>, p: T -> bool)
    requires Removed(s, p) == []
    ensures Kept(s, p) == s
  {
    if s == [] {
    } else {
      NothingRemoved(s[..|s| - 1], p);
    }
  }

  /** A turn of an empty elevator alone ends on the floor of the person who waits nearest. Somebody gets on exactly
      if somebody there wants to go on in the direction in which it came; all of those do. */
  lemma EmptyTurn(s: Shared, c: Car) returns (k: nat, n: nat)
    requires CanPickUp(s, c)
    ensures IsNearest(s.waiting, c.floor, k)
    ensures var (s', c') := Steps(s, c, n); var r := s.waiting[k];
            && n > 0 && BothOk(s', c') && c'.pc.Looping? && !s'.expired && s'.delivered == s.delivered
            && c'.floor == r.from && (c'.aboard == [] ==> s'.waiting == s.waiting)
            && c'.direction == (if (if r.from == c.floor then r.to else r.from) > c.floor then 1 else -1)
            && (c'.aboard != [] <==> SomebodyGoes(s.waiting, c'.floor, c'.direction))
            && forall x :: x in s.waiting && x.from == c'.floor && Ahead(c'.floor, x.to, c'.direction) ==>
                 Passenger(x, 0) in c'.aboard
  {
    k := GoesToNearest(s, c);
    TimeLeft(s, c);
    hide BothOk, CarStep, Steps, BoardSteps, SomebodyGoes, IsNearest, Ahead;
    var (s4, c4) := Steps(s, c, 4);
    CanGoOn(c4);
    StepMore(s, c, 4, s4, c4);
    DropsNobody(s4, c4);
    n := BoardMore(s, c, 5, s4, c4.(pc := Boarding));
    EmptyBoards(s4, c4.(pc := Boarding));
  }

  lemma TimeLeft(s: Shared, c: Car)
    requires CanPickUp(s, c)
    ensures !s.timesup && !s.expired && s.waiting != []
  {
  }

  /** With somebody on its own floor an empty elevator has somebody aboard after one turn. */
  lemma TurnOnFloor(s: Shared, c: Car, r: Rider) returns (n: nat)
    requires CanPickUp(s, c) && r in s.waiting && r.from == c.floor
    ensures var (s', c') := Steps(s, c, n); BothOk(s', c') && c'.pc.Looping? && c'.aboard != []
  {
    var k;
    k, n := EmptyTurn(s, c);
    NearestGoes(s, c, r, k);
    hide BothOk, Steps, SomebodyGoes, IsNearest, Ahead;
  }

  lemma NearestGoes(s: Shared, c: Car, r: Rider, k: nat)
    requires BothOk(s, c) && r in s.waiting && r.from == c.floor && IsNearest(s.waiting, c.floor, k)
    ensures s.waiting[k].from == c.floor
    ensures SomebodyGoes(s.waiting, c.floor, if s.waiting[k].to > c.floor then 1 else -1)
  {
    var j :| 0 <= j < |s.waiting| && s.waiting[j] == r;
    var x := s.waiting[k];
    assert x in s.waiting && RiderOk(x, s.floors);
  }

  lemma FirstTurn(s: Shared, c: Car) returns (r: Rider, n: nat)
    requires CanPickUp(s, c)
    ensures var (s', c') := Steps(s, c, n);
            && BothOk(s', c') && c'.pc.Looping?
            && (c'.aboard == [] ==> CanPickUp(s', c') && r in s'.waiting && r.from == c'.floor)
  {
    var k;
    k, n := EmptyTurn(s, c);
    NearestWaits(s.waiting, c.floor, k);
    TimeLeft(s, c);
    r := s.waiting[k];
    hide BothOk, Steps, SomebodyGoes, IsNearest, Ahead;
  }

  /** An empty elevator left alone has somebody aboard after two turns at most. */
  lemma TwoTurnsBoard(s: Shared, c: Car) returns (n: nat)
    requires CanPickUp(s, c)
    ensures var (s', c') := Steps(s, c, n); BothOk(s', c') && c'.pc.Looping? && c'.aboard != []
  {
    hide BothOk, Steps, CanPickUp;
    var r;
    r, n := FirstTurn(s, c);
    var (s', c') := Steps(s, c, n);
    if c'.aboard == [] {
      var m := TurnOnFloor(s', c', r);
      StepsCompose(s, c, n, m);
      n := n + m;
    }
  }

  lemma NearestWaits(waiting: seq<Rider>, floor: int, k: nat)
    requires IsNearest(waiting, floor, k)
    ensures k < |waiting| && waiting[k] in waiting
  {
  }

  lemma StepsNone(s: Shared, c: Car)
    ensures Steps(s, c, 0) == (s, c)
  {
  }

  lemma CanGoOn(c: Car)
    ensures CanMove(c) <==> !c.pc.Finished? && !c.pc.Crashed?
  {
  }

  lemma AmongBoth(s: seq<Person>, t: seq<Person>, t': seq<Person>, u: seq<Person>)
    requires Among(s, t + u) && Among(t, t')
    ensures Among(s, t' + u)
  {
    forall i | 0 <= i < |s|
      ensures s[i] in t' + u
    {
      assert s[i] in t || s[i] in u;
    }
  }
}
