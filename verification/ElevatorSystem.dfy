/** elevator/improved as a step system: any number of elevators, one thread that makes people, and the clock. A
    section under the queue's mutex is one step, except that a thread about to wait still holds the mutex until it
    sleeps; each unprotected access to the clock or to `timesup` is a step, and so is each signal outside the
    mutex. */
module ElevatorSystem {
  import opened Riders
  import opened Sums

  /** `moved` records how many floors the person has been carried. */
  datatype Passenger = Passenger(rider: Rider, moved: nat)

  /** The program points of `elevator_entry` and of the functions it calls. At `ChoosingWait` and `BoardingWait`
      the elevator has found nobody and is about to call `cv_wait`. `Crashed` is an exit on a bad argument. */
  datatype Pc =
    | Looping | Choosing | ChoosingWait | Moving | Arriving | Dropping | Boarding | BoardingWait | NobodyBoarded
    | Leaving | Signalling | Reporting | Finished | Crashed

  /** `finished` is the local count. `origin` and `moves` describe the current sweep: the floor where it began
      and the moves made since with people aboard. */
  datatype Car = Car(
    pc: Pc, floor: int, dest: int, direction: int, aboard: seq<Passenger>, finished: nat,
    origin: int, moves: nat)

  /** `added` and `delivered` record everybody made and everybody dropped. */
  datatype Shared = Shared(
    floors: nat, waiting: seq<Rider>, timesup: bool, expired: bool, started: nat, finished: nat,
    added: seq<Rider>, delivered: seq<Passenger>)

  datatype MakerPc = Checking | Making | Stopped

  /** The queue's mutex and condition variable: the elevator that keeps the mutex between steps, or -1, and those
      asleep. `sleptLate` records whether one ever fell asleep after `timesup` was set. */
  datatype Monitor = Monitor(holder: int, asleep: set<nat>, sleptLate: bool)

  datatype World = World(shared: Shared, cars: seq<Car>, maker: MakerPc, monitor: Monitor)

  function RidersOf(ps: seq<Passenger>): (rs: seq<Rider>)
    ensures |rs| == |ps| && forall i :: 0 <= i < |ps| ==> rs[i] == ps[i].rider
  {
    seq(|ps|, i requires 0 <= i < |ps| => ps[i].rider)
  }

  function Enter(rs: seq<Rider>): (ps: seq<Passenger>)
    ensures |ps| == |rs| && forall i :: 0 <= i < |rs| ==> ps[i] == Passenger(rs[i], 0)
  {
    seq(|rs|, i requires 0 <= i < |rs| => Passenger(rs[i], 0))
  }

  function Carry(ps: seq<Passenger>, distance: nat): (qs: seq<Passenger>)
    ensures |qs| == |ps| && forall i :: 0 <= i < |ps| ==> qs[i] == Passenger(ps[i].rider, ps[i].moved + distance)
  {
    seq(|ps|, i requires 0 <= i < |ps| => Passenger(ps[i].rider, ps[i].moved + distance))
  }

  function Leaves(floor: int): Passenger -> bool {
    (p: Passenger) => p.rider.to == floor
  }

  // ----- Steps of an elevator ------------------------------------------------------------------------

  predicate CanMove(c: Car) { !c.pc.Finished? && !c.pc.Crashed? }

  function ChooseStep(s: Shared, c: Car): Car
    requires s.waiting != []
  {
    var (dest, direction) := Choose(s.waiting, c.floor, s.floors);
    c.(pc := if dest == -1 then Looping else Moving, dest := dest, direction := direction,
       origin := c.floor, moves := 0)
  }

  function ArriveStep(c: Car): Car {
    var sweeping := c.aboard != [];
    c.(pc := Dropping, floor := c.dest, aboard := Carry(c.aboard, Abs(c.dest - c.floor)),
       origin := if sweeping then c.origin else c.dest, moves := if sweeping then c.moves + 1 else 0)
  }

  function DropStep(s: Shared, c: Car): (Shared, Car) {
    var dropped := Removed(c.aboard, Leaves(c.floor));
    (s.(delivered := s.delivered + dropped),
     c.(pc := Boarding, aboard := Kept(c.aboard, Leaves(c.floor)), finished := c.finished + |dropped|))
  }

  function BoardStep(s: Shared, c: Car): (Shared, Car) {
    var going := Riders.Boarding(c.floor, c.direction);
    var aboard := c.aboard + Enter(Removed(s.waiting, going));
    (s.(waiting := Kept(s.waiting, going)),
     if Removed(s.waiting, going) == [] then c.(pc := NobodyBoarded)
     else c.(pc := Looping, aboard := aboard, dest := NextStop(RidersOf(aboard), c.floor, s.floors)))
  }

  function CarStep(s: Shared, c: Car): (Shared, Car)
    requires CanMove(c)
  {
    match c.pc
    case Looping => (s, c.(pc := if s.expired then Leaving else if c.aboard == [] then Choosing else Moving))
    case Choosing =>
      (s, if s.timesup then c.(pc := Looping, dest := -1)
          else if s.waiting == [] then c.(pc := ChoosingWait)
          else ChooseStep(s, c))
    case ChoosingWait => (s, c.(pc := Choosing))
    case Moving => (s, c.(pc := if c.dest < 0 then Crashed else if s.timesup then Dropping else Arriving))
    case Arriving => (s, if s.timesup then c.(pc := Dropping) else ArriveStep(c))
    case Dropping => if s.timesup then (s, c.(pc := Boarding)) else DropStep(s, c)
    case Boarding =>
      if c.direction == 0 || c.floor < 0 then (s, c.(pc := Crashed))
      else if s.timesup then (s, c.(pc := Looping))
      else if s.waiting == [] then (s, c.(pc := BoardingWait))
      else BoardStep(s, c)
    case BoardingWait => (s, c.(pc := Boarding))
    case NobodyBoarded =>
      (s, if s.timesup then c.(pc := Looping)
          else c.(pc := Looping, dest := NextStop(RidersOf(c.aboard), c.floor, s.floors)))
    case Leaving => (s.(timesup := true), c.(pc := Signalling))
    case Signalling => (s, c.(pc := Reporting))
    case Reporting => (s.(finished := s.finished + c.finished), c.(pc := Finished))
  }

  // ----- The condition variable ----------------------------------------------------------------------

  /** What POSIX says of a signal: it wakes at least one sleeper if there is one. */
  predicate WakesSome(asleep: set<nat>, woken: set<nat>) {
    woken <= asleep && (asleep != {} ==> woken != {})
  }

  function Signal(m: Monitor, woken: set<nat>): Monitor { m.(asleep := m.asleep - woken) }

  /** The steps that take the queue's mutex. */
  predicate NeedsMutex(c: Car) { c.pc.Choosing? || c.pc.Boarding? }

  predicate AboutToWait(c: Car) { c.pc.ChoosingWait? || c.pc.BoardingWait? }

  /** What the step of elevator `i` from `c` to `c'` does to mutex and condition variable. An elevator that finds
      the time is up wakes another. */
  function MonitorStep(m: Monitor, timesup: bool, i: nat, c: Car, c': Car, woken: set<nat>): Monitor {
    if AboutToWait(c) then Monitor(-1, m.asleep + {i}, m.sleptLate || timesup)
    else if AboutToWait(c') then m.(holder := i)
    else if c.pc.Signalling? || (NeedsMutex(c) && timesup && !c'.pc.Crashed?) then Signal(m, woken)
    else m
  }

  // ----- Steps of the whole program ------------------------------------------------------------------

  /** `Make` carries the two random floors; `woken` matters only where the step signals. */
  datatype Step =
    | Run(car: nat, woken: set<nat>)
    | Check
    | Make(from: int, to: int, woken: set<nat>)
    | Expire
    | Spurious(car: nat)

  predicate RiderOk(r: Rider, floors: nat) {
    0 <= r.from < floors && 0 <= r.to < floors && r.from != r.to
  }

  predicate CanStep(w: World, step: Step) {
    var m := w.monitor;
    match step
    case Run(i, woken) =>
      && i < |w.cars| && CanMove(w.cars[i]) && WakesSome(m.asleep, woken)
      && (NeedsMutex(w.cars[i]) ==> i !in m.asleep && m.holder == -1)
    case Check => w.maker.Checking?
    case Make(from, to, woken) =>
      && w.maker.Making? && RiderOk(Rider(w.shared.started, from, to), w.shared.floors)
      && WakesSome(m.asleep, woken) && m.holder == -1
    case Expire => !w.shared.expired
    case Spurious(i) => i in m.asleep
  }

  function AddPerson(s: Shared, r: Rider): Shared {
    s.(waiting := s.waiting + [r], added := s.added + [r], started := s.started + 1)
  }

  function Next(w: World, step: Step): World
    requires CanStep(w, step)
  {
    match step
    case Run(i, woken) =>
      var (s, c) := CarStep(w.shared, w.cars[i]);
      w.(shared := s, cars := w.cars[i := c],
         monitor := MonitorStep(w.monitor, w.shared.timesup, i, w.cars[i], c, woken))
    case Check => w.(maker := if w.shared.expired then Stopped else Making)
    case Make(from, to, woken) =>
      w.(maker := Checking, shared := AddPerson(w.shared, Rider(w.shared.started, from, to)),
         monitor := Signal(w.monitor, woken))
    case Expire => w.(shared := w.shared.(expired := true))
    case Spurious(i) => w.(monitor := Signal(w.monitor, {i}))
  }

  const NEW_CAR := Car(Looping, 0, -1, 0, [], 0, 0, 0)

  /** `main` lets through two floors or more. */
  predicate Initial(w: World) {
    && w.shared == Shared(w.shared.floors, [], false, false, 0, 0, [], []) && w.shared.floors >= 2
    && (forall i :: 0 <= i < |w.cars| ==> w.cars[i] == NEW_CAR)
    && w.maker == Checking && w.monitor == Monitor(-1, {}, false)
  }

  // ----- Invariant of one elevator -------------------------------------------------------------------

  predicate Ahead(x: int, y: int, direction: int) { if direction > 0 then x < y else y < x }

  predicate NotBehind(x: int, y: int, direction: int) { if direction > 0 then x <= y else y <= x }

  /** A person aboard is on the way from `from` to `to`, and has been carried exactly that far. */
  predicate OnTheWay(p: Passenger, floor: int, direction: int, floors: nat) {
    && RiderOk(p.rider, floors)
    && NotBehind(p.rider.from, floor, direction) && NotBehind(floor, p.rider.to, direction)
    && Ahead(p.rider.from, p.rider.to, direction)
    && p.moved == Abs(floor - p.rider.from)
  }

  predicate AllOnTheWay(c: Car, floors: nat) {
    forall p :: p in c.aboard ==> OnTheWay(p, c.floor, c.direction, floors)
  }

  predicate NobodyArrived(c: Car) {
    forall p :: p in c.aboard ==> p.rider.to != c.floor
  }

  /** The next stop is the nearest floor that somebody aboard wants. */
  predicate StopIsNearest(c: Car) {
    && (exists p :: p in c.aboard && p.rider.to == c.dest)
    && forall p :: p in c.aboard ==> NotBehind(c.dest, p.rider.to, c.direction)
  }

  predicate PlaceOk(c: Car, floors: nat) {
    && 0 <= c.floor < floors && -1 <= c.direction <= 1
    && 0 <= c.origin < floors && c.moves <= Abs(c.floor - c.origin)
    && NotBehind(c.origin, c.floor, c.direction)
    && (c.direction == 0 ==> c.moves == 0 && c.aboard == [])
  }

  predicate PcOk(s: Shared, c: Car) {
    match c.pc
    case Looping => (c.aboard != [] ==> c.direction != 0) && (c.aboard != [] && !s.timesup ==> StopIsNearest(c))
    case Choosing | ChoosingWait => c.aboard == []
    case Moving | Arriving =>
      && c.direction != 0 && 0 <= c.dest < s.floors
      && (c.aboard != [] && !s.timesup ==> StopIsNearest(c))
    case Dropping | Boarding | BoardingWait | NobodyBoarded => c.direction != 0
    case Leaving => s.expired
    case Signalling | Reporting | Finished => s.expired && s.timesup
    case Crashed => false
  }

  predicate CarInv(s: Shared, c: Car) {
    && PlaceOk(c, s.floors) && AllOnTheWay(c, s.floors) && PcOk(s, c)
    && (!c.pc.Dropping? && !s.timesup ==> NobodyArrived(c))
  }

  predicate SharedInv(s: Shared) {
    && s.floors >= 2 && (s.timesup ==> s.expired)
    && (forall r :: r in s.waiting ==> RiderOk(r, s.floors))
  }

  /** Where `make_sure_direction` sends an empty elevator: to the nearest person waiting. */
  lemma ChooseFacts(waiting: seq<Rider>, floor: int, floors: nat)
    requires waiting != [] && 0 <= floor < floors && forall r :: r in waiting ==> RiderOk(r, floors)
    ensures var (dest, direction) := Choose(waiting, floor, floors);
            && 0 <= dest < floors && (direction == 1 || direction == -1) && NotBehind(floor, dest, direction)
            && (exists r :: r in waiting && r.from == dest && (dest == floor ==> Ahead(floor, r.to, direction)))
            && forall r :: r in waiting ==> Abs(dest - floor) <= Abs(r.from - floor)
  {
    var floors' := Origins(waiting);
    ScanFindsNearest(floors', floor, floors);
    var k := Scan(floors', floor, floors).0;
    assert RiderOk(waiting[0], floors) && Abs(floors'[0] - floor) < floors;
    assert waiting[k] in waiting;
    forall r | r in waiting
      ensures Abs(floors'[k] - floor) <= Abs(r.from - floor)
    {
      var j :| 0 <= j < |waiting| && waiting[j] == r;
      assert floors'[j] == r.from;
    }
  }

  /** Of several who wait equally near the first in the queue decides; somebody on the elevator's own floor decides
      by where to go. */
  lemma ChooseNearest(waiting: seq<Rider>, floor: int, floors: nat) returns (k: nat)
    requires waiting != [] && 0 <= floor < floors && forall r :: r in waiting ==> RiderOk(r, floors)
    ensures k < |waiting|
    ensures forall j :: 0 <= j < |waiting| ==> Abs(waiting[k].from - floor) <= Abs(waiting[j].from - floor)
    ensures forall j :: 0 <= j < k ==> Abs(waiting[k].from - floor) < Abs(waiting[j].from - floor)
    ensures var goal := if waiting[k].from == floor then waiting[k].to else waiting[k].from;
            Choose(waiting, floor, floors) == (waiting[k].from, if goal > floor then 1 else -1)
  {
    var floors' := Origins(waiting);
    ScanFindsNearest(floors', floor, floors);
    k := Scan(floors', floor, floors).0;
    assert RiderOk(waiting[0], floors) && Abs(floors'[0] - floor) < floors;
    hide RiderOk;
    assert forall j :: 0 <= j < |waiting| ==> floors'[j] == waiting[j].from;
  }

  /** -1 for nobody; otherwise a destination of somebody, and nobody's is nearer. */
  lemma NextStopNearest(riders: seq<Rider>, floor: int, floors: nat)
    requires 0 <= floor < floors && forall r :: r in riders ==> RiderOk(r, floors)
    ensures riders == [] ==> NextStop(riders, floor, floors) == -1
    ensures riders != [] ==> exists r :: r in riders && r.to == NextStop(riders, floor, floors)
    ensures forall r :: r in riders ==> Abs(NextStop(riders, floor, floors) - floor) <= Abs(r.to - floor)
  {
    var stops := Destinations(riders);
    ScanFindsNearest(stops, floor, floors);
    var k := Scan(stops, floor, floors).0;
    if riders != [] {
      assert RiderOk(riders[0], floors) && Abs(stops[0] - floor) < floors;
      assert riders[k] in riders;
      forall r | r in riders
        ensures Abs(stops[k] - floor) <= Abs(r.to - floor)
      {
        var j :| 0 <= j < |riders| && riders[j] == r;
        assert stops[j] == r.to;
      }
    }
  }

  lemma NextStopFacts(c: Car, floors: nat)
    requires c.aboard != [] && AllOnTheWay(c, floors) && NobodyArrived(c) && 0 <= c.floor < floors
    ensures var c' := c.(pc := Looping, dest := NextStop(RidersOf(c.aboard), c.floor, floors)); StopIsNearest(c')
  {
    var stops := Destinations(RidersOf(c.aboard));
    ScanFindsNearest(stops, c.floor, floors);
    var k := Scan(stops, c.floor, floors).0;
    assert c.aboard[0] in c.aboard && Abs(stops[0] - c.floor) < floors;
    assert c.aboard[k] in c.aboard && stops[k] == c.aboard[k].rider.to;
    forall p | p in c.aboard
      ensures NotBehind(stops[k], p.rider.to, c.direction)
    {
      var j :| 0 <= j < |c.aboard| && c.aboard[j] == p;
      assert Abs(stops[k] - c.floor) <= Abs(stops[j] - c.floor);
      assert OnTheWay(c.aboard[k], c.floor, c.direction, floors);
    }
  }

  lemma ArriveInv(s: Shared, c: Car)
    requires SharedInv(s) && CarInv(s, c) && c.pc.Arriving? && !s.timesup
    ensures CarInv(s, ArriveStep(c))
  {
    var c' := ArriveStep(c);
    forall p | p in c'.aboard
      ensures OnTheWay(p, c'.floor, c'.direction, s.floors)
    {
      var k :| 0 <= k < |c'.aboard| && c'.aboard[k] == p;
      assert c.aboard[k] in c.aboard;
    }
  }

  lemma DropInv(s: Shared, c: Car)
    requires SharedInv(s) && CarInv(s, c) && c.pc.Dropping? && !s.timesup
    ensures var (s', c') := DropStep(s, c); SharedInv(s') && CarInv(s', c')
  {
    RemovalConserves(c.aboard, Leaves(c.floor));
  }

  /** Those who get on want to go on in the direction of the elevator. */
  lemma BoardersOnTheWay(s: Shared, c: Car, p: Passenger)
    requires SharedInv(s) && c.direction != 0
    requires p in Enter(Removed(s.waiting, Riders.Boarding(c.floor, c.direction)))
    ensures OnTheWay(p, c.floor, c.direction, s.floors) && p.rider.to != c.floor
  {
    var going := Riders.Boarding(c.floor, c.direction);
    var boarded := Removed(s.waiting, going);
    RemovalConserves(s.waiting, going);
    var i :| 0 <= i < |boarded| && p == Passenger(boarded[i], 0);
    assert boarded[i] in boarded && going(boarded[i]);
    ForwardCases(boarded[i].from, boarded[i].to, c.direction);
  }

  lemma BoardInv(s: Shared, c: Car)
    requires SharedInv(s) && CarInv(s, c) && c.pc.Boarding? && !s.timesup
    ensures var (s', c') := BoardStep(s, c); SharedInv(s') && CarInv(s', c')
  {
    hide OnTheWay, StopIsNearest, Kept, Removed, NextStop, RidersOf, Enter, Riders.Boarding;
    var going := Riders.Boarding(c.floor, c.direction);
    var boarded := Removed(s.waiting, going);
    RemovalConserves(s.waiting, going);
    var c' := c.(pc := Looping, aboard := c.aboard + Enter(boarded));
    forall p | p in c'.aboard
      ensures OnTheWay(p, c.floor, c.direction, s.floors) && p.rider.to != c.floor
    {
      if p !in c.aboard {
        BoardersOnTheWay(s, c, p);
      }
    }
    if boarded != [] {
      NextStopFacts(c', s.floors);
    }
  }

  /** The steps that leave floor, direction and people alone. */
  predicate IsQuiet(s: Shared, c: Car) {
    match c.pc
    case Choosing | Boarding => s.timesup || s.waiting == []
    case Arriving | Dropping | NobodyBoarded => s.timesup
    case _ => true
  }

  lemma QuietStepInv(s: Shared, c: Car)
    requires SharedInv(s) && CarInv(s, c) && CanMove(c) && IsQuiet(s, c)
    ensures var (s', c') := CarStep(s, c); SharedInv(s') && CarInv(s', c')
  {
    hide OnTheWay;
    if c.pc.Looping? && !s.expired && c.aboard != [] {
      StopInRange(c, s.floors);
    }
  }

  lemma BusyStepInv(s: Shared, c: Car)
    requires SharedInv(s) && CarInv(s, c) && CanMove(c) && !IsQuiet(s, c)
    ensures var (s', c') := CarStep(s, c); SharedInv(s') && CarInv(s', c')
  {
    hide DropStep, BoardStep, ArriveStep, NextStop, Choose, RidersOf, OnTheWay;
    match c.pc
    case Choosing => ChooseFacts(s.waiting, c.floor, s.floors);
    case Arriving => ArriveInv(s, c);
    case Dropping => DropInv(s, c);
    case Boarding => BoardInv(s, c);
    case NobodyBoarded =>
      if c.aboard != [] {
        NextStopFacts(c, s.floors);
      }
  }

  lemma CarStepInv(s: Shared, c: Car)
    requires SharedInv(s) && CarInv(s, c) && CanMove(c)
    ensures var (s', c') := CarStep(s, c); SharedInv(s') && CarInv(s', c')
  {
    hide CarStep, CarInv, SharedInv;
    if IsQuiet(s, c) {
      QuietStepInv(s, c);
    } else {
      BusyStepInv(s, c);
    }
  }

  lemma StopInRange(c: Car, floors: nat)
    requires AllOnTheWay(c, floors) && StopIsNearest(c)
    ensures 0 <= c.dest < floors
  {
  }

  // ----- Invariant of the whole program --------------------------------------------------------------

  function AllAboard(cars: seq<Car>): multiset<Rider> {
    if cars == [] then multiset{} else multiset(RidersOf(cars[0].aboard)) + AllAboard(cars[1..])
  }

  lemma {:induction false} AllAboardUpdate(cars: seq<Car>, i: nat, c: Car)
    requires i < |cars|
    ensures AllAboard(cars[i := c]) + multiset(RidersOf(cars[i].aboard))
            == AllAboard(cars) + multiset(RidersOf(c.aboard))
  {
    if i == 0 {
      assert cars[0 := c][1..] == cars[1..];
    } else {
      var rest := cars[1..];
      assert cars[i := c][1..] == rest[i - 1 := c];
      AllAboardUpdate(rest, i - 1, c);
      var (first, before, after) :=
        (multiset(RidersOf(cars[0].aboard)), multiset(RidersOf(cars[i].aboard)), multiset(RidersOf(c.aboard)));
      assert rest[i - 1] == cars[i];
      forall x: Rider
        ensures (first + AllAboard(rest[i - 1 := c]) + before)[x] == (first + AllAboard(rest) + after)[x]
      {
        assert (AllAboard(rest[i - 1 := c]) + before)[x] == (AllAboard(rest) + after)[x];
      }
    }
  }

  /** What an elevator has yet to add to the global count. */
  function Unreported(c: Car): int { if c.pc.Finished? then 0 else c.finished }

  /** Everybody made is waiting, aboard one elevator, or delivered: once. */
  predicate Conserved(w: World) {
    multiset(w.shared.added)
    == multiset(w.shared.waiting) + AllAboard(w.cars) + multiset(RidersOf(w.shared.delivered))
  }

  predicate Counted(w: World) {
    && w.shared.started == |w.shared.added|
    && |w.shared.delivered| == w.shared.finished + Sum(w.cars, Unreported)
  }

  /** Identifiers are the numbers in which people are made. */
  predicate Numbered(added: seq<Rider>) {
    forall i :: 0 <= i < |added| ==> added[i].id == i
  }

  predicate CarriedExactly(p: Passenger) {
    p.moved == Abs(p.rider.to - p.rider.from)
  }

  predicate Inv(w: World) {
    && SharedInv(w.shared) && (forall i :: 0 <= i < |w.cars| ==> CarInv(w.shared, w.cars[i]))
    && Conserved(w) && Counted(w) && Numbered(w.shared.added)
    && (forall p :: p in w.shared.delivered ==> CarriedExactly(p))
    && (w.maker.Stopped? ==> w.shared.expired)
    && MonitorInv(w)
  }

  // ----- Invariant of the condition variable ---------------------------------------------------------

  predicate WillSignal(c: Car) { !c.pc.Reporting? && !c.pc.Finished? }

  predicate SomeAwake(w: World) {
    exists i :: 0 <= i < |w.cars| && i !in w.monitor.asleep
  }

  predicate SignalToCome(w: World) {
    exists i :: 0 <= i < |w.cars| && i !in w.monitor.asleep && WillSignal(w.cars[i])
  }

  predicate MonitorShape(w: World) {
    var m := w.monitor;
    && -1 <= m.holder < |w.cars|
    && (forall i :: i in m.asleep ==> i < |w.cars| && NeedsMutex(w.cars[i]))
    && (forall i :: 0 <= i < |w.cars| ==> (AboutToWait(w.cars[i]) <==> m.holder == i))
    && (m.holder != -1 ==> w.shared.waiting == [])
  }

  /** While people wait, some elevator is awake; once the time is up, some elevator that is awake will still signal,
      unless one fell asleep too late. */
  predicate NobodyForgotten(w: World) {
    && (w.cars != [] && w.shared.waiting != [] && !w.shared.timesup ==> SomeAwake(w))
    && (w.shared.timesup && w.monitor.asleep != {} && !w.monitor.sleptLate ==> SignalToCome(w))
  }

  predicate MonitorInv(w: World) { MonitorShape(w) && NobodyForgotten(w) }

  lemma RunMonitorInv(w: World, i: nat, woken: set<nat>)
    requires MonitorInv(w) && CanStep(w, Run(i, woken))
    requires CarInv(w.shared, w.cars[i]) && CarInv(CarStep(w.shared, w.cars[i]).0, CarStep(w.shared, w.cars[i]).1)
    ensures MonitorInv(Next(w, Run(i, woken)))
  {
    RunMonitorShape(w, i, woken);
    RunForgetsNobody(w, i, woken);
    hide MonitorShape, NobodyForgotten;
  }

  lemma RunMonitorShape(w: World, i: nat, woken: set<nat>)
    requires MonitorShape(w) && CanStep(w, Run(i, woken))
    ensures MonitorShape(Next(w, Run(i, woken)))
  {
    hide DropStep, BoardStep, ChooseStep, ArriveStep, NextStop, RidersOf, WakesSome;
    StepShapes(w.shared, w.cars[i]);
  }

  lemma RunForgetsNobody(w: World, i: nat, woken: set<nat>)
    requires MonitorInv(w) && CanStep(w, Run(i, woken))
    requires CarInv(w.shared, w.cars[i]) && CarInv(CarStep(w.shared, w.cars[i]).0, CarStep(w.shared, w.cars[i]).1)
    ensures NobodyForgotten(Next(w, Run(i, woken)))
  {
    hide PlaceOk, AllOnTheWay, NobodyArrived, StopIsNearest;
    hide DropStep, BoardStep, ChooseStep, ArriveStep, NextStop, RidersOf;
    var w' := Next(w, Run(i, woken));
    StepShapes(w.shared, w.cars[i]);
    if w.cars[i].pc.Signalling? && w.monitor.asleep != {} {
      var j :| j in woken;
      assert j < |w'.cars| && j !in w'.monitor.asleep && w'.cars[j] == w.cars[j];
    } else if w.shared.timesup && SignalToCome(w) {
      var j :| 0 <= j < |w.cars| && j !in w.monitor.asleep && WillSignal(w.cars[j]);
      assert j != i ==> w'.cars[j] == w.cars[j];
    }
    assert i < |w'.cars|;
  }

  lemma StepShapes(s: Shared, c: Car)
    ensures DropStep(s, c).1.pc.Boarding? && DropStep(s, c).0.(delivered := s.delivered) == s
    ensures BoardStep(s, c).1.pc.NobodyBoarded? || BoardStep(s, c).1.pc.Looping?
    ensures BoardStep(s, c).0.(waiting := s.waiting) == s
    ensures s.waiting != [] ==> ChooseStep(s, c).pc.Looping? || ChooseStep(s, c).pc.Moving?
    ensures ArriveStep(c).pc.Dropping?
  {
  }

  lemma MakeMonitorInv(w: World, step: Step)
    requires MonitorInv(w) && CanStep(w, step) && step.Make?
    ensures MonitorInv(Next(w, step))
  {
    var w' := Next(w, step);
    if w.cars != [] {
      if w.monitor.asleep == {} {
        assert 0 !in w'.monitor.asleep;
      } else {
        var j :| j in step.woken;
        assert j < |w'.cars| && j !in w'.monitor.asleep;
      }
    }
    if w.shared.timesup && SignalToCome(w) {
      var j :| 0 <= j < |w.cars| && j !in w.monitor.asleep && WillSignal(w.cars[j]);
      assert j !in w'.monitor.asleep && WillSignal(w'.cars[j]);
    }
  }

  /** Any two different floors can be those of the next person, whichever sleepers its signal wakes. */
  lemma AnybodyCanCome(w: World, from: int, to: int, woken: set<nat>)
    requires w.maker.Making? && w.monitor.holder == -1
    requires 0 <= from < w.shared.floors && 0 <= to < w.shared.floors && from != to
    requires woken <= w.monitor.asleep && (w.monitor.asleep != {} ==> woken != {})
    ensures CanStep(w, Make(from, to, woken))
  {
  }

  /** An elevator that leaves, or finds under the mutex that the time is up, wakes somebody, if anybody sleeps; no
      other step of an elevator does, and none puts another one to sleep. */
  lemma WhoWakes(w: World, i: nat, woken: set<nat>)
    requires Inv(w) && CanStep(w, Run(i, woken))
    ensures var (pc, asleep, asleep') := (w.cars[i].pc, w.monitor.asleep, Next(w, Run(i, woken)).monitor.asleep);
            && asleep' <= asleep + {i}
            && if pc.Signalling? || (w.shared.timesup && (pc.Choosing? || pc.Boarding?))
               then asleep != {} ==> exists j :: j in asleep && j !in asleep'
               else asleep <= asleep'
    ensures var (m, m') := (w.monitor, Next(w, Run(i, woken)).monitor);
            m'.sleptLate <==> m.sleptLate || (w.shared.timesup && i in m'.asleep - m.asleep)
  {
    hide DropStep, BoardStep, ChooseStep, ArriveStep, NextStop, RidersOf, Conserved, Counted, Numbered;
    StepShapes(w.shared, w.cars[i]);
    assert CarInv(w.shared, w.cars[i]);
    if woken != {} {
      var j :| j in woken;
      assert j in w.monitor.asleep;
    }
  }

  lemma SpuriousMonitorInv(w: World, i: nat)
    requires MonitorInv(w) && CanStep(w, Spurious(i))
    ensures MonitorInv(Next(w, Spurious(i)))
    ensures Next(w, Spurious(i)) == w.(monitor := w.monitor.(asleep := w.monitor.asleep - {i}))
  {
    var w' := Next(w, Spurious(i));
    assert i < |w'.cars| && i !in w'.monitor.asleep && WillSignal(w'.cars[i]);
  }

  lemma {:induction false} NobodyAboard(cars: seq<Car>)
    requires forall i :: 0 <= i < |cars| ==> cars[i].aboard == []
    ensures AllAboard(cars) == multiset{}
  {
    if cars == [] {
    } else {
      assert RidersOf(cars[0].aboard) == [];
      NobodyAboard(cars[1..]);
    }
  }

  lemma InitInv(w: World)
    requires Initial(w)
    ensures Inv(w)
  {
    NobodyAboard(w.cars);
    SumBounds(w.cars, Unreported, 0, 0);
  }

  /** The other elevators do not mind the clock or the flag going up. */
  lemma OthersKeep(s: Shared, s': Shared, c: Car)
    requires CarInv(s, c) && s'.floors == s.floors && (s.timesup ==> s'.timesup) && (s.expired ==> s'.expired)
    ensures CarInv(s', c)
  {
  }

  lemma FlagsOnlyRise(s: Shared, c: Car)
    requires CanMove(c)
    ensures var s' := CarStep(s, c).0;
            && s'.floors == s.floors && s'.added == s.added && s'.started == s.started
            && (s.timesup ==> s'.timesup) && s'.expired == s.expired
  {
  }

  lemma RidersOfEnter(rs: seq<Rider>)
    ensures RidersOf(Enter(rs)) == rs
  {
  }

  lemma RidersOfCarry(ps: seq<Passenger>, distance: nat)
    ensures RidersOf(Carry(ps, distance)) == RidersOf(ps)
  {
  }

  lemma RidersOfConcat(ps: seq<Passenger>, qs: seq<Passenger>)
    ensures RidersOf(ps + qs) == RidersOf(ps) + RidersOf(qs)
  {
  }

  lemma {:induction false} LeaversConserved(ps: seq<Passenger>, p: Passenger -> bool)
    ensures multiset(RidersOf(ps)) == multiset(RidersOf(Kept(ps, p))) + multiset(RidersOf(Removed(ps, p)))
  {
    if ps == [] {
    } else {
      var n := |ps| - 1;
      var last := [ps[n]];
      LeaversConserved(ps[..n], p);
      assert ps == ps[..n] + last;
      RidersOfConcat(ps[..n], last);
      RidersOfConcat(last, Removed(ps[..n], p));
      RidersOfConcat(Kept(ps[..n], p), last);
      assert Kept(ps, p) == Kept(ps[..n], p) + if p(ps[n]) then [] else last;
      assert Kept(ps[..n], p) + [] == Kept(ps[..n], p) && [] + Removed(ps[..n], p) == Removed(ps[..n], p);
    }
  }

  lemma DropConserves(s: Shared, c: Car)
    ensures var (s', c') := DropStep(s, c);
            multiset(s.waiting) + multiset(RidersOf(c'.aboard)) + multiset(RidersOf(s'.delivered))
            == multiset(s.waiting) + multiset(RidersOf(c.aboard)) + multiset(RidersOf(s.delivered))
  {
    hide Kept, Removed, RidersOf;
    LeaversConserved(c.aboard, Leaves(c.floor));
    RidersOfConcat(s.delivered, Removed(c.aboard, Leaves(c.floor)));
  }

  lemma BoardConserves(s: Shared, c: Car)
    ensures var (s', c') := BoardStep(s, c);
            multiset(s'.waiting) + multiset(RidersOf(c'.aboard)) == multiset(s.waiting) + multiset(RidersOf(c.aboard))
  {
    hide Kept, Removed, NextStop, RidersOf, Riders.Boarding;
    var going := Riders.Boarding(c.floor, c.direction);
    var boarded := Removed(s.waiting, going);
    RemovalConserves(s.waiting, going);
    RidersOfConcat(c.aboard, Enter(boarded));
    RidersOfEnter(boarded);
  }

  /** A step of one elevator moves people between the queue, the elevator and those delivered. */
  lemma StepConserves(s: Shared, c: Car)
    requires CanMove(c)
    ensures var (s', c') := CarStep(s, c);
            multiset(s'.waiting) + multiset(RidersOf(c'.aboard)) + multiset(RidersOf(s'.delivered))
            == multiset(s.waiting) + multiset(RidersOf(c.aboard)) + multiset(RidersOf(s.delivered))
  {
    hide DropStep, BoardStep, RidersOf, Choose, NextStop;
    DropConserves(s, c);
    BoardConserves(s, c);
    RidersOfCarry(c.aboard, Abs(c.dest - c.floor));
    StepsElsewhere(s, c);
  }

  lemma StepsElsewhere(s: Shared, c: Car)
    ensures DropStep(s, c).0.waiting == s.waiting && BoardStep(s, c).0.delivered == s.delivered
  {
  }

  lemma StepCounts(s: Shared, c: Car)
    requires CanMove(c)
    ensures var (s', c') := CarStep(s, c);
            |s'.delivered| - s'.finished - Unreported(c') == |s.delivered| - s.finished - Unreported(c)
  {
  }

  /** People get off where they want to, after the shortest ride. */
  lemma DroppedAtDestination(s: Shared, c: Car)
    requires SharedInv(s) && CarInv(s, c) && CanMove(c)
    ensures var s' := CarStep(s, c).0;
            && |s.delivered| <= |s'.delivered| && s'.delivered[..|s.delivered|] == s.delivered
            && forall i :: |s.delivered| <= i < |s'.delivered| ==>
                 s'.delivered[i] in c.aboard && s'.delivered[i].rider.to == c.floor && CarriedExactly(s'.delivered[i])
  {
    hide Kept, Removed, NextStop, Choose;
    if c.pc.Dropping? && !s.timesup {
      var dropped := Removed(c.aboard, Leaves(c.floor));
      RemovalConserves(c.aboard, Leaves(c.floor));
      forall i | |s.delivered| <= i < |s.delivered| + |dropped|
        ensures var p := (s.delivered + dropped)[i]; p in c.aboard && p.rider.to == c.floor && CarriedExactly(p)
      {
        assert (s.delivered + dropped)[i] in dropped;
      }
    }
  }

  /** People get on where they are, in an elevator that goes their way. */
  lemma BoardedAtOrigin(s: Shared, c: Car, p: Passenger)
    requires CanMove(c) && c.pc.Boarding? && p in CarStep(s, c).1.aboard && p !in c.aboard
    ensures p.rider in s.waiting && p.rider.from == c.floor && p.moved == 0
    ensures Forward(c.floor, p.rider.to, c.direction)
  {
    hide Kept, Removed, NextStop, Choose;
    var going := Riders.Boarding(c.floor, c.direction);
    var boarded := Removed(s.waiting, going);
    RemovalConserves(s.waiting, going);
    var i :| 0 <= i < |boarded| && p == Passenger(boarded[i], 0);
    assert boarded[i] in boarded;
  }

  /** Unless the time is up, everybody gets on who waits on the floor and wants to go the elevator's way, and nobody
      else leaves the queue. */
  lemma NobodyLeftBehind(s: Shared, c: Car)
    requires CanMove(c) && c.pc.Boarding? && !s.timesup && c.direction != 0 && c.floor >= 0
    ensures var (s', c') := CarStep(s, c);
            && (forall r :: r in s'.waiting && r.from == c.floor ==>
                  if c.direction > 0 then r.to <= c.floor else r.to >= c.floor)
            && (forall r :: r in s.waiting && r !in s'.waiting ==>
                  && r.from == c.floor && (if c.direction > 0 then r.to > c.floor else r.to < c.floor)
                  && Passenger(r, 0) in c'.aboard)
  {
    hide Kept, Removed, NextStop, RidersOf, Riders.Boarding;
    var going := Riders.Boarding(c.floor, c.direction);
    var boarded := Removed(s.waiting, going);
    BoardingSplits(s.waiting, c.floor, c.direction);
    RemovalConserves(s.waiting, going);
    forall r | r in s.waiting && r !in Kept(s.waiting, going)
      ensures r in boarded && Passenger(r, 0) in Enter(boarded)
    {
      assert r in multiset(s.waiting) && r in multiset(boarded);
      var i :| 0 <= i < |boarded| && boarded[i] == r;
      assert Enter(boarded)[i] == Passenger(r, 0);
    }
  }

  lemma RunStepInv(w: World, i: nat, woken: set<nat>)
    requires Inv(w) && CanStep(w, Run(i, woken))
    ensures Inv(Next(w, Run(i, woken)))
  {
    hide CarStep, CarInv, SharedInv, MonitorInv, MonitorStep;
    var (s, c) := CarStep(w.shared, w.cars[i]);
    var w' := Next(w, Run(i, woken));
    CarStepInv(w.shared, w.cars[i]);
    RunMonitorInv(w, i, woken);
    FlagsOnlyRise(w.shared, w.cars[i]);
    forall j | 0 <= j < |w.cars| && j != i
      ensures CarInv(s, w.cars[j])
    {
      OthersKeep(w.shared, s, w.cars[j]);
    }
    StepConserves(w.shared, w.cars[i]);
    AllAboardUpdate(w.cars, i, c);
    MoveMultisets(multiset(w.shared.waiting), multiset(RidersOf(w.cars[i].aboard)),
                  multiset(RidersOf(w.shared.delivered)),
                  multiset(s.waiting), multiset(RidersOf(c.aboard)), multiset(RidersOf(s.delivered)),
                  AllAboard(w.cars), AllAboard(w'.cars));
    StepCounts(w.shared, w.cars[i]);
    SumUpdate(w.cars, Unreported, i, c);
    DroppedAtDestination(w.shared, w.cars[i]);
    assert forall p :: p in s.delivered ==>
      p in s.delivered[..|w.shared.delivered|]
      || exists k :: |w.shared.delivered| <= k < |s.delivered| && s.delivered[k] == p;
  }

  lemma MoveMultisets<T>(a: multiset<T>, b: multiset<T>, c: multiset<T>,
                         a': multiset<T>, b': multiset<T>, c': multiset<T>,
                         all: multiset<T>, all': multiset<T>)
    requires a' + b' + c' == a + b + c && all' + b == all + b'
    ensures a' + all' + c' == a + all + c
  {
    forall x: T
      ensures (a' + all' + c')[x] == (a + all + c)[x]
    {
      assert (a' + b' + c')[x] == (a + b + c)[x] && (all' + b)[x] == (all + b')[x];
    }
  }

  lemma StepInv(w: World, step: Step)
    requires Inv(w) && CanStep(w, step)
    ensures Inv(Next(w, step))
  {
    match step
    case Run(i, woken) => RunStepInv(w, i, woken);
    case Make(_, _, _) => MakeStepInv(w, step);
    case Spurious(i) =>
      hide MonitorInv;
      SpuriousMonitorInv(w, i);
    case _ => ClockStepInv(w, step);
  }

  lemma MakeStepInv(w: World, step: Step)
    requires Inv(w) && CanStep(w, step) && step.Make?
    ensures Inv(Next(w, step))
  {
    hide MonitorInv, CarInv, WakesSome;
    MakeMonitorInv(w, step);
    OthersKeepAll(w, Next(w, step).shared);
  }

  lemma ClockStepInv(w: World, step: Step)
    requires Inv(w) && CanStep(w, step) && (step.Check? || step.Expire?)
    ensures Inv(Next(w, step))
  {
    hide CarInv;
    OthersKeepAll(w, Next(w, step).shared);
  }

  lemma OthersKeepAll(w: World, s': Shared)
    requires forall i :: 0 <= i < |w.cars| ==> CarInv(w.shared, w.cars[i])
    requires s'.floors == w.shared.floors && s'.timesup == w.shared.timesup && (w.shared.expired ==> s'.expired)
    ensures forall i :: 0 <= i < |w.cars| ==> CarInv(s', w.cars[i])
  {
    forall i | 0 <= i < |w.cars|
      ensures CarInv(s', w.cars[i])
    {
      OthersKeep(w.shared, s', w.cars[i]);
    }
  }

  // ----- Rides and sweeps ----------------------------------------------------------------------------

  /** Between stops everybody aboard still has to go on in the elevator's direction. */
  lemma StrictlyAhead(w: World, i: nat, p: Passenger)
    requires Inv(w) && i < |w.cars| && p in w.cars[i].aboard
    requires !w.cars[i].pc.Dropping? && !w.shared.timesup
    ensures Forward(w.cars[i].floor, p.rider.to, w.cars[i].direction)
  {
  }

  lemma DirectionChangesOnlyWhenEmpty(s: Shared, c: Car)
    requires CarInv(s, c) && CanMove(c) && CarStep(s, c).1.direction != c.direction
    ensures c.aboard == [] && c.pc.Choosing?
  {
  }

  /** `moves` counts exactly the changes of floor with people aboard; it starts again only in an empty elevator. */
  lemma MovesCounted(s: Shared, c: Car)
    requires SharedInv(s) && CarInv(s, c) && CanMove(c) && c.aboard != []
    ensures var c' := CarStep(s, c).1; c'.moves == c.moves + if c'.floor != c.floor then 1 else 0
  {
  }

  lemma SweepBound(w: World, i: nat)
    requires Inv(w) && i < |w.cars|
    ensures w.cars[i].moves <= w.shared.floors - 1
  {
  }

  /** Every move of an elevator with people aboard ends where somebody wants to get off; whenever it drops people
      there, it delivers somebody. */
  lemma EveryStopDelivers(s: Shared, c: Car)
    requires SharedInv(s) && CarInv(s, c) && c.pc.Arriving? && !s.timesup && c.aboard != []
    ensures var there := CarStep(s, c).1;
            && (exists p :: p in there.aboard && p.rider.to == there.floor)
            && forall s': Shared :: !s'.timesup ==> |CarStep(s', there).0.delivered| > |s'.delivered|
  {
    hide Kept, Removed;
    var there := ArriveStep(c);
    var p :| p in c.aboard && p.rider.to == c.dest;
    var i :| 0 <= i < |c.aboard| && c.aboard[i] == p;
    assert there.aboard[i] in there.aboard;
    hide Carry, RidersOf, CarInv, SharedInv, ArriveStep;
    forall s': Shared | !s'.timesup
      ensures |CarStep(s', there).0.delivered| > |s'.delivered|
    {
      DropDelivers(s', there, there.aboard[i]);
    }
  }

  lemma DropDelivers(s: Shared, c: Car, p: Passenger)
    requires c.pc.Dropping? && !s.timesup && p in c.aboard && p.rider.to == c.floor
    ensures |CarStep(s, c).0.delivered| > |s.delivered|
  {
    RemovalConserves(c.aboard, Leaves(c.floor));
    hide Kept, Removed;
    assert p in multiset(c.aboard) && Leaves(c.floor)(p);
  }

  /** No argument check of the program ever fails. */
  lemma NeverCrashes(w: World, i: nat)
    requires Inv(w) && i < |w.cars|
    ensures !w.cars[i].pc.Crashed? && 0 <= w.cars[i].floor < w.shared.floors
    ensures w.cars[i].pc.Moving? ==> w.cars[i].dest >= 0
    ensures w.cars[i].pc.Boarding? ==> w.cars[i].direction != 0
  {
  }

  lemma RidersOfSplit(ps: seq<Passenger>)
    requires ps != []
    ensures var n := |ps| - 1;
            && RidersOf(ps)[..n] == RidersOf(ps[..n])
            && RidersOf(ps)[n] == ps[n].rider && RidersOf([ps[n]]) == [ps[n].rider]
  {
  }

  /** Dropping from an elevator is the removal that `ElevatorLists.Elevator.DropPeople` performs on its list. */
  lemma {:induction false} DropsArrivals(ps: seq<Passenger>, floor: int)
    ensures RidersOf(Kept(ps, Leaves(floor))) == Kept(RidersOf(ps), ArrivedAt(floor))
    ensures RidersOf(Removed(ps, Leaves(floor))) == Removed(RidersOf(ps), ArrivedAt(floor))
  {
    if ps == [] {
    } else {
      hide RidersOf, Kept, Removed;
      var n := |ps| - 1;
      var first, last := ps[..n], [ps[n]];
      DropsArrivals(first, floor);
      RidersOfSplit(ps);
      RemovalLast(ps, Leaves(floor));
      RemovalLast(RidersOf(ps), ArrivedAt(floor));
      RidersOfConcat(Kept(first, Leaves(floor)), last);
      RidersOfConcat(last, Removed(first, Leaves(floor)));
    }
  }

  // ----- Where everybody is --------------------------------------------------------------------------

  lemma {:induction false} NumberedOnce(added: seq<Rider>, r: Rider)
    requires Numbered(added)
    ensures multiset(added)[r] == if r in added then 1 else 0
  {
    if added == [] {
    } else {
      var n := |added| - 1;
      assert added == added[..n] + [added[n]];
      NumberedOnce(added[..n], r);
    }
  }

  /** Everybody made is in exactly one place, once. */
  lemma InOnePlace(w: World, r: Rider)
    requires Inv(w)
    ensures multiset(w.shared.waiting)[r] + AllAboard(w.cars)[r] + multiset(RidersOf(w.shared.delivered))[r]
            == if r in w.shared.added then 1 else 0
  {
    NumberedOnce(w.shared.added, r);
    assert multiset(w.shared.added)[r]
           == (multiset(w.shared.waiting) + AllAboard(w.cars) + multiset(RidersOf(w.shared.delivered)))[r];
  }

  predicate AllFinished(w: World) {
    forall i :: 0 <= i < |w.cars| ==> w.cars[i].pc.Finished?
  }

  /** What `main` prints after joining its threads. */
  lemma FinishedTotals(w: World)
    requires Inv(w) && AllFinished(w)
    ensures w.shared.finished == |w.shared.delivered| && w.shared.started == |w.shared.added|
    ensures w.shared.started == w.shared.finished + |w.shared.waiting| + |AllAboard(w.cars)|
  {
    SumBounds(w.cars, Unreported, 0, 0);
    assert |multiset(w.shared.added)|
           == |multiset(w.shared.waiting) + AllAboard(w.cars) + multiset(RidersOf(w.shared.delivered))|;
  }

  // ----- Whole runs ----------------------------------------------------------------------------------

  predicate RunOf(w: World, schedule: seq<Step>)
    decreases |schedule|
  {
    schedule == [] || (CanStep(w, schedule[0]) && RunOf(Next(w, schedule[0]), schedule[1..]))
  }

  function After(w: World, schedule: seq<Step>): World
    requires RunOf(w, schedule)
    decreases |schedule|
  {
    if schedule == [] then w else After(Next(w, schedule[0]), schedule[1..])
  }

  lemma RunEnds(w: World)
    ensures RunOf(w, []) && After(w, []) == w
  {
  }

  lemma RunBack(w: World, schedule: seq<Step>)
    requires schedule != [] && CanStep(w, schedule[0]) && RunOf(Next(w, schedule[0]), schedule[1..])
    ensures RunOf(w, schedule) && After(w, schedule) == After(Next(w, schedule[0]), schedule[1..])
  {
  }

  lemma {:induction false} RunConcat(w: World, first: seq<Step>, second: seq<Step>)
    requires RunOf(w, first) && RunOf(After(w, first), second)
    ensures RunOf(w, first + second) && After(w, first + second) == After(After(w, first), second)
    decreases |first|
  {
    if first == [] {
      assert first + second == second;
    } else {
      assert (first + second)[1..] == first[1..] + second;
      RunConcat(Next(w, first[0]), first[1..], second);
    }
  }

  lemma {:induction false} RunInv(w: World, schedule: seq<Step>)
    requires Inv(w) && RunOf(w, schedule)
    ensures Inv(After(w, schedule))
    decreases |schedule|
  {
    if schedule == [] {
    } else {
      StepInv(w, schedule[0]);
      RunInv(Next(w, schedule[0]), schedule[1..]);
    }
  }

  /** In every run nobody is lost or duplicated, everybody delivered was carried exactly the distance of the
      ride, and when all elevators have finished the count printed is the number delivered. */
  lemma EveryRunConserves(w: World, schedule: seq<Step>)
    requires Initial(w) && RunOf(w, schedule)
    ensures var e := After(w, schedule);
            && Conserved(e) && Numbered(e.shared.added)
            && (forall p :: p in e.shared.delivered ==> CarriedExactly(p))
            && (AllFinished(e) ==> e.shared.finished == |e.shared.delivered| && e.shared.started == |e.shared.added|)
  {
    InitInv(w);
    RunInv(w, schedule);
    if AllFinished(After(w, schedule)) {
      FinishedTotals(After(w, schedule));
    }
  }
}
