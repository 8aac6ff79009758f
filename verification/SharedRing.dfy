/** The single-producer/single-consumer ring of IPC/posixshm: a sender and a receiver that share free-running
    32-bit counters and no lock. One step is one access to the shared memory: a test of the counters, a store
    or a load of a slot, or an atomic increment. */
module SharedRing {
  import opened Unsigned
  import opened Sums

  const ULONG_RANGE := 0x1_0000_0000_0000_0000

  /** The shared memory. */
  datatype Ring = Ring(head: uint32, tail: uint32, data: seq<int>)

  /** Sizes that the counters and the fullness test can handle; 4096 and 512 are the ones in use. */
  predicate SizeOk(size: nat) {
    1 <= size < UINT_RANGE && UINT_RANGE % size == 0
  }

  function Slot(counter: uint32, size: nat): nat
    requires size > 0
  {
    counter % size
  }

  datatype SenderPc = SendTest | SendStore(index: nat) | SendIncrement | SendDone
  datatype ReceiverPc = ReceiveTest | ReceiveLoad(index: nat) | ReceiveIncrement(item: int) | ReceiveDone

  /** `sent` counts completed calls of `rb_add`; `sum` is an `unsigned long`. */
  datatype Sender = Sender(pc: SenderPc, sent: nat, sum: int)
  datatype Receiver = Receiver(pc: ReceiverPc, received: seq<int>, sum: int, count: int)

  datatype State = State(ring: Ring, sender: Sender, receiver: Receiver)

  /** What the parent sends: the numbers, then the end marker. */
  function Messages(payload: seq<int>): seq<int> { payload + [-1] }

  predicate PayloadOk(payload: seq<int>) {
    forall i :: 0 <= i < |payload| ==> 0 <= payload[i] < 0x8000_0000
  }

  function AddUlong(x: int, y: int): int { (x + y) % ULONG_RANGE }

  function IsFull(r: Ring): bool { Minus(r.head, r.tail) == |r.data| }
  function IsEmpty(r: Ring): bool { Minus(r.head, r.tail) == 0 }

  function Store(r: Ring, index: nat, item: int): Ring
    requires index < |r.data|
  {
    r.(data := r.data[index := item])
  }

  function SendStep(s: State, payload: seq<int>): State
    requires 0 < |s.ring.data| && s.sender.sent < |Messages(payload)|
    requires s.sender.pc.SendStore? ==> s.sender.pc.index < |s.ring.data|
  {
    var m := Messages(payload)[s.sender.sent];
    match s.sender.pc
    case SendTest =>
      if IsFull(s.ring) then s
      else s.(sender := s.sender.(pc := SendStore(Slot(s.ring.head, |s.ring.data|))))
    case SendStore(index) =>
      s.(ring := Store(s.ring, index, m), sender := s.sender.(pc := SendIncrement))
    case SendIncrement =>
      var last := s.sender.sent == |payload|;
      s.(ring := s.ring.(head := Plus1(s.ring.head)),
         sender := Sender(if last then SendDone else SendTest, s.sender.sent + 1,
                          if last then s.sender.sum else AddUlong(s.sender.sum, m)))
    case SendDone => s
  }

  function ReceiveStep(s: State): State
    requires 0 < |s.ring.data|
    requires s.receiver.pc.ReceiveLoad? ==> s.receiver.pc.index < |s.ring.data|
  {
    var v := s.receiver;
    match v.pc
    case ReceiveTest =>
      if IsEmpty(s.ring) then s
      else s.(receiver := v.(pc := ReceiveLoad(Slot(s.ring.tail, |s.ring.data|))))
    case ReceiveLoad(index) =>
      s.(receiver := v.(pc := ReceiveIncrement(s.ring.data[index])))
    case ReceiveIncrement(item) =>
      s.(ring := s.ring.(tail := Plus1(s.ring.tail)),
         receiver := if item < 0
                     then Receiver(ReceiveDone, v.received + [item], v.sum, v.count)
                     else Receiver(ReceiveTest, v.received + [item], AddUlong(v.sum, item), v.count + 1))
    case ReceiveDone => s
  }

  /** What every step needs, whatever the size of the ring. */
  predicate Bounds(s: State, payload: seq<int>) {
    && 0 < |s.ring.data| && s.sender.sent <= |Messages(payload)|
    && (s.sender.pc.SendDone? <==> s.sender.sent == |Messages(payload)|)
    && (s.sender.pc.SendStore? ==> s.sender.pc.index < |s.ring.data|)
    && (s.receiver.pc.ReceiveLoad? ==> s.receiver.pc.index < |s.ring.data|)
  }

  /** `rb_init` copies `tail`, whatever it is, and the slots start with any contents. */
  predicate Init(s: State, payload: seq<int>, size: nat, start: uint32)
    ensures Init(s, payload, size, start) ==> Bounds(s, payload)
  {
    && PayloadOk(payload)
    && |s.ring.data| == size > 0
    && s.ring.head == s.ring.tail == start
    && s.sender == Sender(SendTest, 0, 0)
    && s.receiver == Receiver(ReceiveTest, [], 0, 0)
  }

  function TotalUlong(xs: seq<int>): int {
    if xs == [] then 0 else AddUlong(TotalUlong(xs[..|xs| - 1]), xs[|xs| - 1])
  }

  // ----- Invariant -----------------------------------------------------------------------------------

  predicate SenderOk(s: State, payload: seq<int>, start: uint32)
    requires 0 < |s.ring.data|
  {
    var size, sent, got := |s.ring.data|, s.sender.sent, |s.receiver.received|;
    && sent <= |Messages(payload)|
    && (s.sender.pc.SendDone? <==> sent == |Messages(payload)|)
    && (s.sender.pc.SendStore? ==> s.sender.pc.index == SlotOf(start, sent, size) && sent - got < size)
    && (s.sender.pc.SendIncrement? ==>
          && sent - got < size && sent < |Messages(payload)|
          && s.ring.data[SlotOf(start, sent, size)] == Messages(payload)[sent])
    && s.sender.sum == TotalUlong(payload[..if sent < |payload| then sent else |payload|])
  }

  predicate ReceiverOk(s: State, payload: seq<int>, start: uint32)
    requires 0 < |s.ring.data|
  {
    var got := |s.receiver.received|;
    && got <= |Messages(payload)|
    && s.receiver.received == Messages(payload)[..got]
    && (s.receiver.pc.ReceiveDone? <==> got == |Messages(payload)|)
    && (s.receiver.pc.ReceiveLoad? ==> s.receiver.pc.index == SlotOf(start, got, |s.ring.data|) && got < s.sender.sent)
    && (s.receiver.pc.ReceiveIncrement? ==>
          && got < s.sender.sent && got < |Messages(payload)|
          && s.receiver.pc.item == Messages(payload)[got])
    && s.receiver.count == (if got < |payload| then got else |payload|)
    && s.receiver.sum == TotalUlong(payload[..if got < |payload| then got else |payload|])
  }

  predicate Inv(s: State, payload: seq<int>, start: uint32)
    ensures Inv(s, payload, start) ==> Bounds(s, payload)
  {
    var size, sent, got := |s.ring.data|, s.sender.sent, |s.receiver.received|;
    && SizeOk(size) && PayloadOk(payload)
    && s.ring.head == (start + sent) % UINT_RANGE
    && s.ring.tail == (start + got) % UINT_RANGE
    && got <= sent <= got + size
    && SenderOk(s, payload, start)
    && ReceiverOk(s, payload, start)
    && forall k :: got <= k < sent ==> s.ring.data[SlotOf(start, k, size)] == Messages(payload)[k]
  }

  lemma InitInv(s: State, payload: seq<int>, size: nat, start: uint32)
    requires SizeOk(size) && Init(s, payload, size, start)
    ensures Inv(s, payload, start)
  {
  }

  /** The difference of the counters is the number of unread messages, across any number of wraps. */
  lemma CountersMeasureGap(s: State, payload: seq<int>, start: uint32)
    requires Inv(s, payload, start)
    ensures Minus(s.ring.head, s.ring.tail) == s.sender.sent - |s.receiver.received|
    ensures Slot(s.ring.head, |s.ring.data|) == SlotOf(start, s.sender.sent, |s.ring.data|)
    ensures Slot(s.ring.tail, |s.ring.data|) == SlotOf(start, |s.receiver.received|, |s.ring.data|)
    ensures Plus1(s.ring.head) == (start + s.sender.sent + 1) % UINT_RANGE
    ensures Plus1(s.ring.tail) == (start + |s.receiver.received| + 1) % UINT_RANGE
  {
    hide SenderOk, ReceiverOk, Minus, Plus1;
    var x, y := start + s.sender.sent, start + |s.receiver.received|;
    DifferenceSurvivesWrap(x, y);
    IncrementSurvivesWrap(x);
    IncrementSurvivesWrap(y);
    SlotSurvivesWrap(x, UINT_RANGE, |s.ring.data|);
    SlotSurvivesWrap(y, UINT_RANGE, |s.ring.data|);
  }

  lemma SendStoreInv(s: State, payload: seq<int>, start: uint32)
    requires Inv(s, payload, start) && s.sender.pc.SendStore?
    ensures Inv(SendStep(s, payload), payload, start)
  {
    hide SlotOf, Slot, Minus, Plus1, AddUlong, TotalUlong;
    forall k: nat | |s.receiver.received| <= k < s.sender.sent
      ensures SlotOf(start, k, |s.ring.data|) != s.sender.pc.index
    {
      SlotsDiffer(start, k, s.sender.sent, |s.ring.data|);
    }
  }

  lemma SendStepInv(s: State, payload: seq<int>, start: uint32)
    requires Inv(s, payload, start) && !s.sender.pc.SendDone?
    ensures Inv(SendStep(s, payload), payload, start)
  {
    hide SlotOf, Slot, Minus, Plus1, AddUlong;
    var sent := s.sender.sent;
    CountersMeasureGap(s, payload, start);
    match s.sender.pc
    case SendTest =>
    case SendStore(_) => SendStoreInv(s, payload, start);
    case SendIncrement =>
      if sent < |payload| {
        assert payload[..sent + 1][..sent] == payload[..sent];
      }
  }

  lemma TakeInv(s: State, payload: seq<int>, start: uint32)
    requires Inv(s, payload, start) && s.receiver.pc.ReceiveIncrement?
    ensures Inv(ReceiveStep(s), payload, start)
  {
    hide SlotOf, Slot, Minus, Plus1, AddUlong;
    CountersMeasureGap(s, payload, start);
    var got := |s.receiver.received|;
    assert Messages(payload)[..got] + [Messages(payload)[got]] == Messages(payload)[..got + 1];
    if got < |payload| {
      assert payload[..got + 1][..got] == payload[..got];
    }
  }

  lemma ReceiveStepInv(s: State, payload: seq<int>, start: uint32)
    requires Inv(s, payload, start) && !s.receiver.pc.ReceiveDone?
    ensures Inv(ReceiveStep(s), payload, start)
  {
    hide SlotOf, Slot, Minus, Plus1, AddUlong, TotalUlong;
    CountersMeasureGap(s, payload, start);
    if s.receiver.pc.ReceiveIncrement? {
      TakeInv(s, payload, start);
    }
  }

  // ----- Runs ----------------------------------------------------------------------------------------

  datatype Side = Sending | Receiving

  predicate Active(s: State, side: Side) {
    match side
    case Sending => !s.sender.pc.SendDone?
    case Receiving => !s.receiver.pc.ReceiveDone?
  }

  /** A side spins when its test of the counters fails. */
  predicate Spins(s: State, side: Side) {
    match side
    case Sending => s.sender.pc.SendTest? && IsFull(s.ring)
    case Receiving => s.receiver.pc.ReceiveTest? && IsEmpty(s.ring)
  }

  function Step(s: State, payload: seq<int>, side: Side): (s': State)
    requires Bounds(s, payload) && Active(s, side)
    ensures Bounds(s', payload) && |s'.ring.data| == |s.ring.data|
  {
    match side
    case Sending => SendStep(s, payload)
    case Receiving => ReceiveStep(s)
  }

  lemma StepInv(s: State, payload: seq<int>, start: uint32, side: Side)
    requires Inv(s, payload, start) && Active(s, side)
    ensures Inv(Step(s, payload, side), payload, start)
  {
    match side
    case Sending => SendStepInv(s, payload, start);
    case Receiving => ReceiveStepInv(s, payload, start);
  }

  /** The accesses still to be made if nobody spins. */
  function Remaining(s: State, payload: seq<int>): int {
    var n := |Messages(payload)|;
    var inCall := match s.sender.pc { case SendStore(_) => 1 case SendIncrement => 2 case _ => 0 };
    var inCall' := match s.receiver.pc { case ReceiveLoad(_) => 1 case ReceiveIncrement(_) => 2 case _ => 0 };
    3 * (n - s.sender.sent) - inCall + 3 * (n - |s.receiver.received|) - inCall'
  }

  lemma StepRemaining(s: State, payload: seq<int>, start: uint32, side: Side)
    requires Inv(s, payload, start) && Active(s, side)
    ensures Spins(s, side) ==> Step(s, payload, side) == s
    ensures !Spins(s, side) ==> Remaining(Step(s, payload, side), payload) == Remaining(s, payload) - 1
  {
  }

  /** The two sides never wait for each other: unless both are done, one can go on without spinning. */
  lemma NeverBothWaiting(s: State, payload: seq<int>, start: uint32) returns (side: Side)
    requires Inv(s, payload, start) && (Active(s, Sending) || Active(s, Receiving))
    ensures Active(s, side) && !Spins(s, side)
  {
    CountersMeasureGap(s, payload, start);
    side := if Active(s, Sending) && !Spins(s, Sending) then Sending else Receiving;
  }

  predicate Run(s: State, payload: seq<int>, schedule: seq<Side>)
    requires Bounds(s, payload)
    decreases |schedule|
  {
    schedule == [] || (Active(s, schedule[0]) && Run(Step(s, payload, schedule[0]), payload, schedule[1..]))
  }

  function After(s: State, payload: seq<int>, schedule: seq<Side>): (s': State)
    requires Bounds(s, payload) && Run(s, payload, schedule)
    ensures Bounds(s', payload) && |s'.ring.data| == |s.ring.data|
    decreases |schedule|
  {
    if schedule == [] then s else After(Step(s, payload, schedule[0]), payload, schedule[1..])
  }

  /** The steps of a run that are not spins. */
  function Accesses(s: State, payload: seq<int>, schedule: seq<Side>): nat
    requires Bounds(s, payload) && Run(s, payload, schedule)
    decreases |schedule|
  {
    if schedule == [] then 0 else
      (if Spins(s, schedule[0]) then 0 else 1) + Accesses(Step(s, payload, schedule[0]), payload, schedule[1..])
  }

  lemma {:induction false} AccessesCount(s: State, payload: seq<int>, start: uint32, schedule: seq<Side>)
    requires Inv(s, payload, start) && Run(s, payload, schedule)
    ensures Inv(After(s, payload, schedule), payload, start)
    ensures Remaining(s, payload)
            == Accesses(s, payload, schedule) + Remaining(After(s, payload, schedule), payload)
    decreases |schedule|
  {
    hide Inv, Remaining, Step;
    if schedule == [] {
    } else {
      StepInv(s, payload, start, schedule[0]);
      StepRemaining(s, payload, start, schedule[0]);
      AccessesCount(Step(s, payload, schedule[0]), payload, start, schedule[1..]);
    }
  }

  /** What was received is a prefix of what was sent, and at most `size` messages are in flight. */
  predicate InOrder(s: State, payload: seq<int>, size: nat)
    requires Bounds(s, payload)
  {
    && s.receiver.received <= (payload + [-1])[..s.sender.sent]
    && 0 <= s.sender.sent - |s.receiver.received| <= size
  }

  /** At every moment of every run, from any common start of the counters and however often they have wrapped, the
      channel is in order. */
  lemma ChannelIsFifo(s: State, payload: seq<int>, size: nat, start: uint32, schedule: seq<Side>)
    requires SizeOk(size) && Init(s, payload, size, start) && Run(s, payload, schedule)
    ensures InOrder(After(s, payload, schedule), payload, size)
  {
    InitInv(s, payload, size, start);
    AccessesCount(s, payload, start, schedule);
  }

  lemma {:induction false} TotalIsSum(xs: seq<int>)
    ensures TotalUlong(xs) == Sum(xs, (x: int) => x) % 0x1_0000_0000_0000_0000
  {
    if xs == [] {
    } else {
      var n := |xs| - 1;
      TotalIsSum(xs[..n]);
      assert xs == xs[..n] + [xs[n]];
      SumAppend(xs[..n], [xs[n]], (x: int) => x);
    }
  }

  /** A receiver that has stopped has all messages and then the end marker, and its count and sum are the sender's:
      the sum of the messages in 64 bits. Every run makes at most six accesses per message, and a run that cannot
      make another one is complete. */
  lemma TransferAgrees(s: State, payload: seq<int>, size: nat, start: uint32, schedule: seq<Side>)
    requires SizeOk(size) && Init(s, payload, size, start) && Run(s, payload, schedule)
    ensures var e := After(s, payload, schedule);
            e.receiver.pc.ReceiveDone? ==>
              && e.sender.pc.SendDone?
              && e.receiver.received == payload + [-1]
              && e.receiver.count == |payload|
              && e.receiver.sum == e.sender.sum == Sum(payload, (x: int) => x) % 0x1_0000_0000_0000_0000
    ensures Accesses(s, payload, schedule) <= 6 * (|payload| + 1)
    ensures var e := After(s, payload, schedule);
            (forall side :: Active(e, side) ==> Spins(e, side)) ==>
              e.receiver.pc.ReceiveDone? && Accesses(s, payload, schedule) == 6 * (|payload| + 1)
  {
    InitInv(s, payload, size, start);
    AccessesCount(s, payload, start, schedule);
    TotalIsSum(payload);
    var e := After(s, payload, schedule);
    assert payload[..|payload|] == payload;
    assert Messages(payload)[..|Messages(payload)|] == Messages(payload);
    if forall side :: Active(e, side) ==> Spins(e, side) {
      if Active(e, Sending) || Active(e, Receiving) {
        var side := NeverBothWaiting(e, payload, start);
      }
    }
  }

  // ----- Why the size must divide 2^32 ---------------------------------------------------------------

  /** `counter` advanced by `k`, with wraparound. */
  function Advance(counter: uint32, k: nat): uint32 { (counter + k) % UINT_RANGE }

  /** Fewer than `size` messages further on, a counter never comes back to a slot that is still unread. */
  ghost predicate SlotsNeverClash(size: nat)
    requires size > 0
  {
    forall counter: uint32, k: nat :: 0 < k < size ==> Slot(Advance(counter, k), size) != Slot(counter, size)
  }

  /** The exact condition on the buffer size. A size that does not divide 2^32 fails at the first wrap:
      the counter `2^32 - 2^32 % size` and the counter 0 share slot 0. */
  lemma SlotsNeverClashIff(size: nat)
    requires 1 <= size < 0x1_0000_0000
    ensures SlotsNeverClash(size) <==> 0x1_0000_0000 % size == 0
  {
    if SizeOk(size) {
      forall counter: uint32, k: nat | 0 < k < size
        ensures Slot(Advance(counter, k), size) != Slot(counter, size)
      {
        SlotSurvivesWrap(counter + k, UINT_RANGE, size);
        DistinctSlots(counter, counter + k, size);
      }
    } else {
      var r := UINT_RANGE % size;
      var counter: uint32 := UINT_RANGE - r;
      ModuloUnique(counter, UINT_RANGE / size, 0, size);
      assert Advance(counter, r) == 0;
      assert Slot(Advance(counter, r), size) == Slot(counter, size);
    }
  }

  /** Every run of a ring of this size is in order. */
  ghost predicate AlwaysFifo(size: nat) {
    forall s: State, payload: seq<int>, start: uint32, schedule: seq<Side> ::
      Init(s, payload, size, start) && Run(s, payload, schedule) ==> InOrder(After(s, payload, schedule), payload, size)
  }

  function Sends(k: nat): seq<Side> { if k == 0 then [] else [Sending, Sending, Sending] + Sends(k - 1) }

  /** `sent` messages have been sent from `start` on and none received. */
  predicate OnlySent(s: State, payload: seq<int>, start: uint32) {
    && Bounds(s, payload)
    && s.sender.pc.SendTest? && s.ring.tail == start && s.ring.head == Advance(start, s.sender.sent)
    && s.receiver == Receiver(ReceiveTest, [], 0, 0)
  }

  /** One more undisturbed call of `rb_add`. */
  lemma SendOne(s: State, payload: seq<int>, start: uint32)
    requires OnlySent(s, payload, start) && s.sender.sent < |payload| && s.sender.sent < |s.ring.data| < UINT_RANGE
    ensures var s1 := Step(s, payload, Sending);
            && Active(s, Sending) && Active(s1, Sending) && Active(Step(s1, payload, Sending), Sending)
            && var s3 := Step(Step(s1, payload, Sending), payload, Sending);
               && OnlySent(s3, payload, start) && s3.sender.sent == s.sender.sent + 1
               && s3.ring.data[Slot(s.ring.head, |s.ring.data|)] == payload[s.sender.sent]
  {
    GapOf(start, s.sender.sent);
    AdvanceOne(start, s.sender.sent);
    hide Minus, Advance, Plus1, Slot;
    SlotInRange(s.ring.head, |s.ring.data|);
  }

  lemma GapOf(start: uint32, k: nat)
    requires k < UINT_RANGE
    ensures Minus(Advance(start, k), start) == k
  {
    DifferenceSurvivesWrap(start + k, start);
  }

  lemma AdvanceOne(counter: uint32, k: nat)
    ensures Plus1(Advance(counter, k)) == Advance(counter, k + 1) == Advance(Plus1(counter), k)
  {
  }

  lemma SlotInRange(counter: uint32, size: nat)
    requires size > 0
    ensures Slot(counter, size) < size
  {
  }

  lemma RunOne(s: State, payload: seq<int>, side: Side, rest: seq<Side>)
    requires Bounds(s, payload) && Active(s, side) && Run(Step(s, payload, side), payload, rest)
    ensures Run(s, payload, [side] + rest)
    ensures After(s, payload, [side] + rest) == After(Step(s, payload, side), payload, rest)
  {
    hide Step, Bounds, Active;
    assert ([side] + rest)[1..] == rest;
  }

  lemma RunThree(s: State, payload: seq<int>, side: Side, rest: seq<Side>)
    requires Bounds(s, payload) && Active(s, side)
    requires var s1 := Step(s, payload, side);
             Active(s1, side) && var s2 := Step(s1, payload, side);
             Active(s2, side) && Run(Step(s2, payload, side), payload, rest)
    ensures Run(s, payload, [side, side, side] + rest)
    ensures After(s, payload, [side, side, side] + rest)
            == After(Step(Step(Step(s, payload, side), payload, side), payload, side), payload, rest)
  {
    hide Step, Bounds, Active, Run, After;
    var s1 := Step(s, payload, side);
    RunOne(Step(s1, payload, side), payload, side, rest);
    RunOne(s1, payload, side, [side] + rest);
    RunOne(s, payload, side, [side] + ([side] + rest));
    assert [side] + ([side] + ([side] + rest)) == [side, side, side] + rest;
  }

  /** `k > 0` calls of `rb_add`, then one of `rb_remove`: it gets what is in the first slot by then. */
  lemma {:induction false} SendThenReceive(s: State, payload: seq<int>, start: uint32, k: nat)
    returns (schedule: seq<Side>)
    requires OnlySent(s, payload, start) && 0 < k && s.sender.sent + k <= |payload|
    requires s.sender.sent + k <= |s.ring.data| < UINT_RANGE
    requires Slot(Advance(start, s.sender.sent + k - 1), |s.ring.data|) == Slot(start, |s.ring.data|)
    ensures Run(s, payload, schedule)
    ensures After(s, payload, schedule).receiver.received == [payload[s.sender.sent + k - 1]]
    decreases k
  {
    SendOne(s, payload, start);
    var s3 := Step(Step(Step(s, payload, Sending), payload, Sending), payload, Sending);
    if k == 1 {
      ReceiveOne(s3, payload, start);
      RunThree(s3, payload, Receiving, []);
      schedule := [Receiving, Receiving, Receiving] + [];
    } else {
      schedule := SendThenReceive(s3, payload, start, k - 1);
    }
    RunThree(s, payload, Sending, schedule);
    schedule := [Sending, Sending, Sending] + schedule;
  }

  lemma ReceiveOne(s: State, payload: seq<int>, start: uint32)
    requires OnlySent(s, payload, start) && 0 < s.sender.sent < UINT_RANGE
    ensures var s1 := Step(s, payload, Receiving);
            && Active(s, Receiving) && Active(s1, Receiving) && Active(Step(s1, payload, Receiving), Receiving)
            && Step(Step(s1, payload, Receiving), payload, Receiving).receiver.received
               == [s.ring.data[Slot(start, |s.ring.data|)]]
  {
    GapOf(start, s.sender.sent);
    hide Minus, Advance, Plus1, Slot, AddUlong;
    SlotInRange(start, |s.ring.data|);
  }

  /** A ring whose size does not divide 2^32 hands out a later message as the first one, when the counters start
      shortly before their wrap. */
  lemma WrapBreaksFifo(size: nat) returns (s: State, payload: seq<int>, start: uint32, schedule: seq<Side>)
    requires 1 <= size < UINT_RANGE && !SizeOk(size)
    ensures Init(s, payload, size, start) && Run(s, payload, schedule)
    ensures !InOrder(After(s, payload, schedule), payload, size)
  {
    var r := UINT_RANGE % size;
    start := UINT_RANGE - r;
    WrapMeetsStart(size);
    payload := seq(r + 1, i => if i == r then 1 else 0);
    s := State(Ring(start, start, seq(size, _ => 0)), Sender(SendTest, 0, 0), Receiver(ReceiveTest, [], 0, 0));
    hide Run, After, Step, Slot, Advance;
    schedule := SendThenReceive(s, payload, start, r + 1);
    assert Messages(payload)[0] == 0 && payload[r] == 1;
  }

  lemma WrapMeetsStart(size: nat)
    requires 1 <= size < UINT_RANGE && UINT_RANGE % size != 0
    ensures var r := UINT_RANGE % size;
            0 < r < size && Advance(UINT_RANGE - r, 0) == UINT_RANGE - r
            && Slot(Advance(UINT_RANGE - r, r), size) == Slot(UINT_RANGE - r, size)
  {
    ModuloUnique(UINT_RANGE - UINT_RANGE % size, UINT_RANGE / size, 0, size);
  }

  /** The channel is a FIFO in all runs if and only if its size divides 2^32. */
  lemma AlwaysFifoIff(size: nat)
    requires 1 <= size < 0x1_0000_0000
    ensures AlwaysFifo(size) <==> 0x1_0000_0000 % size == 0
  {
    if SizeOk(size) {
      forall s: State, payload: seq<int>, start: uint32, schedule: seq<Side>
        | Init(s, payload, size, start) && Run(s, payload, schedule)
        ensures InOrder(After(s, payload, schedule), payload, size)
      {
        ChannelIsFifo(s, payload, size, start, schedule);
      }
    } else {
      var s, payload, start, schedule := WrapBreaksFifo(size);
    }
  }

  // ----- The unread messages -------------------------------------------------------------------------

  /** What is in the ring: the slots from `tail` up to `head`. */
  function Unread(r: Ring): (items: seq<int>)
    requires 0 < |r.data|
    ensures |items| == Minus(r.head, r.tail)
    ensures forall k :: 0 <= k < |items| ==> items[k] == r.data[Slot(Advance(r.tail, k), |r.data|)]
  {
    seq(Minus(r.head, r.tail), k requires 0 <= k => r.data[Slot(Advance(r.tail, k), |r.data|)])
  }

  lemma HeadIsAhead(r: Ring)
    ensures r.head == Advance(r.tail, Minus(r.head, r.tail))
  {
  }

  /** The slot that a store goes to is not one of an unread message. */
  lemma StoreKeepsUnread(r: Ring, item: int)
    requires SizeOk(|r.data|) && |Unread(r)| < |r.data|
    ensures var r' := Store(r, Slot(r.head, |r.data|), item);
            Unread(r') == Unread(r) && r'.data[Slot(r.head, |r.data|)] == item
  {
    var gap := Minus(r.head, r.tail);
    HeadIsAhead(r);
    forall k | 0 <= k < gap
      ensures Slot(Advance(r.tail, k), |r.data|) != Slot(r.head, |r.data|)
    {
      SlotsAheadDiffer(r.tail, k, gap, |r.data|);
    }
  }

  lemma SlotsAheadDiffer(counter: uint32, j: nat, k: nat, size: nat)
    requires SizeOk(size) && j < k < j + size
    ensures Slot(Advance(counter, j), size) != Slot(Advance(counter, k), size)
  {
    SlotSurvivesWrap(counter + j, UINT_RANGE, size);
    SlotSurvivesWrap(counter + k, UINT_RANGE, size);
    DistinctSlots(counter + j, counter + k, size);
  }

  lemma PublishAppends(r: Ring)
    requires 0 < |r.data| < UINT_RANGE && |Unread(r)| < |r.data|
    ensures Unread(r.(head := Plus1(r.head))) == Unread(r) + [r.data[Slot(r.head, |r.data|)]]
  {
    HeadIsAhead(r);
    GapGrows(r.head, r.tail);
    hide Minus, Plus1, Advance, Slot;
  }

  lemma GapGrows(head: uint32, tail: uint32)
    requires Minus(head, tail) < UINT_RANGE - 1
    ensures Minus(Plus1(head), tail) == Minus(head, tail) + 1
  {
  }

  lemma GapShrinks(head: uint32, tail: uint32)
    requires Minus(head, tail) > 0
    ensures Minus(head, Plus1(tail)) == Minus(head, tail) - 1 && Advance(tail, 0) == tail
  {
  }

  lemma ReleaseDrops(r: Ring)
    requires 0 < |r.data| && Unread(r) != []
    ensures Unread(r.(tail := Plus1(r.tail))) == Unread(r)[1..]
    ensures Unread(r)[0] == r.data[Slot(r.tail, |r.data|)]
  {
    var r' := r.(tail := Plus1(r.tail));
    GapShrinks(r.head, r.tail);
    hide Minus, Plus1, Advance, Slot;
    forall k | 0 <= k < |Unread(r')|
      ensures Unread(r')[k] == Unread(r)[k + 1]
    {
      AdvanceOne(r.tail, k);
    }
  }

  /** In every reachable state the unread messages are those sent and not yet received. */
  lemma UnreadIsInFlight(s: State, payload: seq<int>, start: uint32)
    requires Inv(s, payload, start)
    ensures Unread(s.ring) == Messages(payload)[|s.receiver.received|..s.sender.sent]
  {
    hide SenderOk, ReceiverOk;
    CountersMeasureGap(s, payload, start);
    var got, size := |s.receiver.received|, |s.ring.data|;
    hide Minus, Slot, Advance, SlotOf;
    forall k | 0 <= k < s.sender.sent - got
      ensures Slot(Advance(s.ring.tail, k), size) == SlotOf(start, got + k, size)
    {
      SlotOfUnread(start, got, k, size);
    }
  }

  lemma SlotOfUnread(start: uint32, got: nat, k: nat, size: nat)
    requires SizeOk(size)
    ensures Slot(Advance((start + got) % UINT_RANGE, k), size) == SlotOf(start, got + k, size)
  {
    AdvanceFrom(start, got, k);
    SlotSurvivesWrap(start + got + k, UINT_RANGE, size);
  }

  lemma AdvanceFrom(start: uint32, got: nat, k: nat)
    ensures Advance((start + got) % UINT_RANGE, k) == (start + got + k) % UINT_RANGE
  {
    var x := (start + got) % UINT_RANGE + k;
    assert start + got + k == ((start + got) / UINT_RANGE + x / UINT_RANGE) * UINT_RANGE + x % UINT_RANGE;
    ModuloUnique(start + got + k, (start + got) / UINT_RANGE + x / UINT_RANGE, x % UINT_RANGE, UINT_RANGE);
  }

  // ----- The operations in place ---------------------------------------------------------------------

  class SharedBuffer {
    var head: uint32
    var tail: uint32
    const data: array<int>

    ghost function State(): Ring
      reads this, data
    {
      Ring(head, tail, data[..])
    }

    ghost function Contents(): seq<int>
      requires data.Length > 0
      reads this, data
    {
      Unread(State())
    }

    /** The mapping is created elsewhere; its contents are arbitrary. */
    constructor (memory: array<int>, head0: uint32, tail0: uint32)
      ensures data == memory && head == head0 && tail == tail0
    {
      data := memory;
      head, tail := head0, tail0;
    }

    /** `rb_init`. */
    method InitBuffer()
      requires data.Length > 0
      modifies this
      ensures Contents() == []
      ensures State() == old(State()).(head := old(tail))
    {
      head := tail;
    }

    /** `rb_add`, after it has waited for room. */
    method AddItem(item: int)
      requires SizeOk(data.Length) && |Contents()| < data.Length
      modifies this`head, data
      ensures Contents() == old(Contents()) + [item]
    {
      StoreItem(item);
      PublishItem();
    }

    method TestFull() returns (full: bool)
      requires data.Length > 0
      ensures full == IsFull(State()) && (full <==> |Contents()| == data.Length)
    {
      full := Minus(head, tail) == data.Length;
    }

    /** Nothing unread is overwritten. */
    method StoreItem(item: int)
      requires SizeOk(data.Length) && |Contents()| < data.Length
      modifies data
      ensures Contents() == old(Contents()) && data[..] == old(data[..])[head % data.Length := item]
      ensures State() == Store(old(State()), Slot(head, data.Length), item)
    {
      StoreKeepsUnread(State(), item);
      var index := head % data.Length;
      data[index] := item;
      assert State() == Store(old(State()), index, item);
    }

    /** What was stored becomes the last unread message. */
    method PublishItem()
      requires 0 < data.Length < UINT_RANGE && |Contents()| < data.Length
      modifies this`head
      ensures Contents() == old(Contents() + [data[head % data.Length]])
      ensures State() == old(State()).(head := Plus1(old(head)))
    {
      PublishAppends(State());
      head := Plus1(head);
    }

    /** `rb_remove`, after it has waited for a message. */
    method RemoveItem() returns (item: int)
      requires data.Length > 0 && Contents() != []
      modifies this`tail
      ensures old(Contents()) == [item] + Contents()
    {
      item := LoadItem();
      ReleaseSlot();
    }

    method TestEmpty() returns (empty: bool)
      requires data.Length > 0
      ensures empty == IsEmpty(State()) && (empty <==> Contents() == [])
    {
      empty := Minus(head, tail) == 0;
    }

    method LoadItem() returns (item: int)
      requires data.Length > 0 && Contents() != []
      ensures item == Contents()[0] == data[tail % data.Length]
    {
      var index := tail % data.Length;
      item := data[index];
      ReleaseDrops(State());
    }

    /** Only the first unread message goes. */
    method ReleaseSlot()
      requires data.Length > 0 && Contents() != []
      modifies this`tail
      ensures Contents() == old(Contents())[1..]
      ensures State() == old(State()).(tail := Plus1(old(tail)))
    {
      ReleaseDrops(State());
      tail := Plus1(tail);
    }
  }
}
