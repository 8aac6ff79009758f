/** The shared fields of rbuffer.c and the critical sections of its push and pop. */
module RingBuffer {
  import opened Unsigned

  datatype Buffer = Buffer(slots: seq<int>, head: uint32, tail: uint32, toProduce: int, toConsume: int)

  predicate Empty(b: Buffer) { Minus(b.head, b.tail) == 0 }

  predicate Full(b: Buffer) { Minus(b.head, b.tail) == |b.slots| }

  datatype Pushed = Pushed(buffer: Buffer, quotaReached: bool)
  datatype Popped = Popped(buffer: Buffer, drained: bool, item: int, wakeOthers: bool)

  /** What push does while it holds the mutex. */
  function Push(b: Buffer, item: int): Pushed
    requires |b.slots| > 0
  {
    if b.toProduce - 1 < 0 then Pushed(b, true) else
      Pushed(b.(toProduce := b.toProduce - 1,
                slots := b.slots[b.head % |b.slots| := item],
                head := Plus1(b.head)), false)
  }

  /** What pop does while it holds the mutex, up to deciding whether to signal `items` once more. */
  function Pop(b: Buffer): Popped
    requires |b.slots| > 0
  {
    if b.toProduce <= 0 && Empty(b) then Popped(b, true, 0, false) else
      Popped(b.(tail := Plus1(b.tail), toConsume := b.toConsume - 1),
             false, b.slots[b.tail % |b.slots|], b.toConsume - 1 <= 0)
  }

  class RBuffer {
    const slots: array<int>
    var head: uint32
    var tail: uint32
    var toProduce: int
    var toConsume: int

    ghost function State(): Buffer
      reads this, slots
    {
      Buffer(slots[..], head, tail, toProduce, toConsume)
    }

    constructor (length: nat, numAll: int)
      ensures fresh(slots) && slots.Length == length
      ensures State().(slots := []) == Buffer([], 0, 0, numAll, numAll)
    {
      slots := new int[length];
      head, tail := 0, 0;
      toProduce, toConsume := numAll, numAll;
    }

    method IsEmpty() returns (empty: bool)
      ensures empty == Empty(State()) && (empty <==> head == tail)
    {
      empty := Minus(head, tail) == 0;
    }

    method IsFull() returns (full: bool)
      requires slots.Length < UINT_RANGE
      ensures full == Full(State()) && (full <==> head == (tail + slots.Length) % UINT_RANGE)
    {
      full := Minus(head, tail) == slots.Length;
    }

    method PushLocked(item: int) returns (quotaReached: bool)
      requires slots.Length > 0
      modifies this, slots
      ensures Pushed(State(), quotaReached) == Push(old(State()), item)
    {
      toProduce := toProduce - 1;
      if toProduce < 0 {
        toProduce := toProduce + 1;
        quotaReached := true;
      } else {
        var index := head % slots.Length;
        slots[index] := item;
        head := Plus1(head);
        quotaReached := false;
      }
    }

    method PopLocked() returns (drained: bool, item: int, wakeOthers: bool)
      requires slots.Length > 0
      modifies this
      ensures Popped(State(), drained, item, wakeOthers) == Pop(old(State()))
    {
      var empty := IsEmpty();
      if toProduce <= 0 && empty {
        return true, 0, false;
      }
      var index := tail % slots.Length;
      item := slots[index];
      tail := Plus1(tail);
      toConsume := toConsume - 1;
      drained, wakeOthers := false, toConsume <= 0;
    }
  }
}
