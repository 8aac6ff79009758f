/** The linked lists of elevator/improved: the waiting queue of people.c and the people aboard of elevator.c. */
module ElevatorLists {
  import opened DoublyLinked
  import opened Riders

  type Person = Node<Rider>

  ghost function Items(s: seq<Person>): (riders: seq<Rider>)
    ensures |riders| == |s| && forall i :: 0 <= i < |s| ==> riders[i] == s[i].item
  {
    seq(|s|, i requires 0 <= i < |s| => s[i].item)
  }

  lemma ItemsFacts(s: seq<Person>, t: seq<Person>)
    ensures Items(s + t) == Items(s) + Items(t)
  {
  }

  /** What is left to do when the cursor of a removal loop has passed the first `i` of `all`: `s` is the list now,
      and its first `k` people are those that stay. */
  ghost predicate Passed(all: seq<Person>, i: nat, p: Rider -> bool, s: seq<Person>, k: nat, taken: seq<Person>) {
    && i <= |all| && k <= |s| && s[k..] == all[i..]
    && Items(s[..k]) == Kept(Items(all)[..i], p) && Items(taken) == Removed(Items(all)[..i], p)
  }

  lemma PassedStart(all: seq<Person>, p: Rider -> bool)
    ensures Passed(all, 0, p, all, 0, [])
  {
  }

  lemma PassedNext(all: seq<Person>, i: nat, p: Rider -> bool, s: seq<Person>, k: nat, taken: seq<Person>)
    requires Passed(all, i, p, s, k, taken) && k < |s|
    ensures i < |all| && s[k] == all[i]
    ensures if p(s[k].item) then Passed(all, i + 1, p, Drop(s, k), k, [s[k]] + taken)
            else Passed(all, i + 1, p, s, k + 1, taken)
  {
    assert s[k] == s[k..][0] == all[i..][0];
    RemovalStep(Items(all), p, i);
    if p(s[k].item) {
      assert Drop(s, k)[k..] == s[k..][1..] == all[i..][1..];
      assert Drop(s, k)[..k] == s[..k];
    } else {
      assert s[k + 1..] == s[k..][1..] == all[i..][1..];
      assert s[..k + 1] == s[..k] + [s[k]];
    }
  }

  lemma PassedEnd(all: seq<Person>, i: nat, p: Rider -> bool, s: seq<Person>, k: nat, taken: seq<Person>)
    requires Passed(all, i, p, s, k, taken) && k == |s|
    ensures Items(s) == Kept(Items(all), p) && Items(taken) == Removed(Items(all), p)
  {
    assert i == |all|;
    assert s[..k] == s && Items(all)[..i] == Items(all);
  }

  /** The end of each turn of a removal loop that takes a person off: put it at the head of the result. */
  method PushFront(person: Person, head: Node?<Rider>, ghost taken: seq<Person>)
    requires Linked(taken) && Distinct(taken) && Apart(taken, [person]) && head == At(taken, 0)
    requires person.prev == null && person.next == null
    modifies person, head
    ensures Linked([person] + taken) && Distinct([person] + taken)
  {
    assert person == [person][0];
    if head != null {
      head.prev := person;
      person.next := head;
    }
    PrependLinks(taken, person);
  }

  lemma DropApart(s: seq<Person>, k: nat)
    requires k < |s| && Distinct(s)
    ensures Distinct(Drop(s, k)) && Apart(Drop(s, k), [s[k]]) && |Drop(s, k)| == |s| - 1
  {
  }

  ghost predicate Among(s: seq<Person>, t: seq<Person>) {
    forall i :: 0 <= i < |s| ==> s[i] in t
  }

  lemma NoneTaken(s: seq<Person>)
    ensures Linked<Rider>([]) && Distinct<Rider>([]) && Apart([], s)
  {
  }

  /** Where the cursor of a removal loop is, and where it goes. */
  lemma CursorFacts(s: seq<Person>, taken: seq<Person>, k: nat)
    requires Linked(s) && k <= |s| && At(s, k) != null
    ensures k < |s| && At(s, k) == s[k] && s[k].next == At(s, k + 1) && s[k] in s
    ensures At(taken, 0) != null ==> 0 < |taken| && At(taken, 0) == taken[0]
  {
  }

  lemma CursorEnd(s: seq<Person>, k: nat)
    requires k <= |s| && At(s, k) == null
    ensures k == |s|
  {
  }

  /** Moving person `k` from one list to the other. */
  lemma MoveFacts(s: seq<Person>, taken: seq<Person>, k: nat)
    requires k < |s| && Distinct(s) && Apart(taken, s)
    ensures Apart(taken, [s[k]]) && Apart([s[k]] + taken, Drop(s, k)) && Apart(taken, Drop(s, k))
    ensures At(Drop(s, k), k) == At(s, k + 1) && |Drop(s, k)| == |s| - 1
    ensures Among(Drop(s, k), s)
    ensures At([s[k]] + taken, 0) == s[k]
  {
  }

  class PersonQueue {
    var number: int
    var head: Node?<Rider>
    var tail: Node?<Rider>
    var timesup: bool
    ghost var people: seq<Person>

    ghost predicate Valid()
      reads this`number, this`head, this`tail, this`people, people
    {
      && Linked(people) && Distinct(people) && number == |people|
      && head == At(people, 0) && tail == At(people, |people| - 1)
    }

    constructor ()
      ensures Valid() && people == [] && !timesup
    {
      number, head, tail, timesup, people := 0, null, null, false, [];
    }

    /** `PersonQueue_add_person`: -1 for a NULL person. */
    method AddPerson(person: Node?<Rider>) returns (status: int)
      requires Valid() && (person != null ==> Apart(people, [person]) && person.prev == null && person.next == null)
      modifies this`number, this`head, this`tail, this`people, person, people
      ensures Valid()
      ensures status == (if person == null then -1 else 1)
      ensures people == if person == null then old(people) else old(people) + [person]
    {
      if person == null {
        return -1;
      }
      assert person == [person][0];
      if head == null || number <= 0 {
        head := person;
        tail := person;
        number := 1;
      } else {
        tail.next := person;
        person.prev := tail;
        tail := person;
        number := number + 1;
      }
      AppendLinks(people, person);
      people := people + [person];
      status := 1;
    }

    /** Take the person at position `k` off the queue. */
    method Unlink(person: Person, ghost k: nat)
      requires Valid() && k < |people| && people[k] == person
      modifies this`number, this`head, this`tail, this`people, people
      ensures Valid() && people == Drop(old(people), k)
      ensures person.prev == null && person.next == null && Apart(people, [person])
    {
      hide Linked, Distinct, Apart, Drop;
      DropApart(people, k);
      NeighboursAt(people, k);
      if person.prev == null {
        head := person.next;
      }
      if person.next == null {
        tail := person.prev;
      }
      Detach(person, people, k);
      number := number - 1;
      people := Drop(people, k);
    }

    /** `PersonQueue_pop_people`, after its wait loop. The list `taken` that it returns is a proper list of the
        people that it took off the queue; `number` is its length. */
    method PopPeople(currentFloor: int, direction: int)
      returns (result: Node?<Rider>, count: nat, ghost taken: seq<Person>)
      requires Valid() && currentFloor >= 0 && direction != 0
      requires timesup || people != []
      modifies this`number, this`head, this`tail, this`people, people
      ensures Valid() && Linked(taken) && Distinct(taken) && Apart(taken, people)
      ensures result == At(taken, 0) && count == |taken|
      ensures Among(taken, old(people)) && Among(people, old(people))
      ensures timesup ==> result == null && people == old(people) && forall x :: x in people ==> unchanged(x)
      ensures !timesup ==> var p := Boarding(currentFloor, direction);
                           && Items(people) == Kept(old(Items(people)), p)
                           && Items(taken) == Removed(old(Items(people)), p)
      ensures !timesup ==> forall r :: r in Items(people) && r.from == currentFloor ==>
                             if direction > 0 then r.to <= currentFloor else r.to >= currentFloor
      ensures forall r :: r in Items(taken) ==>
                r.from == currentFloor && if direction > 0 then r.to > currentFloor else r.to < currentFloor
    {
      hide Linked, Distinct, Drop, Passed, Kept, Removed, Items, Forward;
      result, count, taken := null, 0, [];
      NoneTaken(people);
      if timesup {
        return;
      }
      ghost var all, k, i := people, 0, 0;
      ghost var p := Boarding(currentFloor, direction);
      var person := head;
      PassedStart(all, p);
      while person != null
        invariant Valid() && Linked(taken) && Distinct(taken) && Apart(taken, people)
        invariant result == At(taken, 0) && count == |taken|
        invariant Passed(all, i, p, people, k, taken) && person == At(people, k) && k <= |people|
        invariant Among(taken, all) && Among(people, all)
        decreases |people| - k
      {
        CursorFacts(people, taken, k);
        PassedNext(all, i, p, people, k, taken);
        var next := person.next;
        if person.item.from == currentFloor && Forward(person.item.from, person.item.to, direction) {
          MoveFacts(people, taken, k);
          Unlink(person, k);
          PushFront(person, result, taken);
          result := person;
          taken := [person] + taken;
          count := count + 1;
        } else {
          k := k + 1;
        }
        i := i + 1;
        person := next;
      }
      CursorEnd(people, k);
      PassedEnd(all, i, p, people, k, taken);
      BoardingSplits(Items(all), currentFloor, direction);
    }
  }

  /** What a scan for the next stop knows when its cursor has reached position `i`. */
  ghost predicate Scanned(s: seq<Person>, i: nat, at: int, limit: int, stop: int, distance: int) {
    && i <= |s|
    && var (k, d) := Scan(Destinations(Items(s))[..i], at, limit);
    d == distance && stop == if k < i then s[k].item.to else -1
  }

  lemma ScannedStart(s: seq<Person>, at: int, limit: int)
    ensures Scanned(s, 0, at, limit, -1, limit)
  {
  }

  lemma ScannedNext(s: seq<Person>, i: nat, at: int, limit: int, stop: int, distance: int)
    requires i < |s| && Scanned(s, i, at, limit, stop, distance)
    ensures var d := Abs(s[i].item.to - at);
            if d < distance then Scanned(s, i + 1, at, limit, s[i].item.to, d)
            else Scanned(s, i + 1, at, limit, stop, distance)
  {
    ScanStep(Destinations(Items(s)), at, limit, i);
  }

  lemma ScannedEnd(s: seq<Person>, at: int, limit: int, stop: int, distance: int)
    requires Scanned(s, |s|, at, limit, stop, distance)
    ensures stop == NextStop(Items(s), at, limit)
  {
    assert Destinations(Items(s))[..|s|] == Destinations(Items(s));
  }

  lemma ScannedExtend(s: seq<Person>, t: seq<Person>, at: int, limit: int, stop: int, distance: int)
    requires Scanned(s, |s|, at, limit, stop, distance)
    ensures Scanned(s + t, |s|, at, limit, stop, distance)
  {
    assert Destinations(Items(s + t))[..|s|] == Destinations(Items(s))[..|s|];
  }

  /** What the scan of `make_sure_direction` knows when its cursor has reached position `i`. */
  ghost predicate Sought(s: seq<Person>, i: nat, at: int, limit: int, nearest: Person, distance: int) {
    && i <= |s| && s != []
    && var (k, d) := Scan(Origins(Items(s))[..i], at, limit);
    d == distance && nearest == s[if k < i then k else 0]
  }

  lemma SoughtStart(s: seq<Person>, at: int, limit: int)
    requires s != []
    ensures Sought(s, 0, at, limit, s[0], limit)
  {
  }

  lemma SoughtNext(s: seq<Person>, i: nat, at: int, limit: int, nearest: Person, distance: int)
    requires i < |s| && Sought(s, i, at, limit, nearest, distance)
    ensures var d := Abs(s[i].item.from - at);
            if d < distance then Sought(s, i + 1, at, limit, s[i], d)
            else Sought(s, i + 1, at, limit, nearest, distance)
  {
    ScanStep(Origins(Items(s)), at, limit, i);
  }

  lemma SoughtEnd(s: seq<Person>, at: int, limit: int, nearest: Person, distance: int)
    requires Sought(s, |s|, at, limit, nearest, distance)
    ensures Choose(Items(s), at, limit)
            == if distance != 0 then (nearest.item.from, if nearest.item.from > at then 1 else -1)
               else (at, if nearest.item.to > at then 1 else -1)
  {
    assert Origins(Items(s))[..|s|] == Origins(Items(s));
  }

  /** A cursor walks the list from position `i` on; `last` is the last person it meets. */
  method ScanStops(first: Node?<Rider>, ghost s: seq<Person>, ghost i: nat, at: int, limit: int,
                   stop0: int, distance0: int)
    returns (last: Node?<Rider>, stop: int, distance: int)
    requires Linked(s) && i <= |s| && first == At(s, i) && Scanned(s, i, at, limit, stop0, distance0)
    ensures Scanned(s, |s|, at, limit, stop, distance)
    ensures last == if i < |s| then s[|s| - 1] else null
  {
    hide Linked, Scanned, At;
    last, stop, distance := null, stop0, distance0;
    var cursor := first;
    ghost var j := i;
    AtEnd(s);
    while cursor != null
      invariant i <= j <= |s| && cursor == At(s, j)
      invariant last == if i < j then s[j - 1] else null
      invariant Scanned(s, j, at, limit, stop, distance)
      decreases |s| - j
    {
      CursorFacts(s, [], j);
      ScannedNext(s, j, at, limit, stop, distance);
      var d := Abs(cursor.item.to - at);
      if d < distance {
        distance := d;
        stop := cursor.item.to;
      }
      last := cursor;
      cursor := cursor.next;
      j := j + 1;
    }
    CursorEnd(s, j);
  }

  /** The person who waits nearest to the floor `at`, the first of them if there are several. */
  method FindNearest(head: Node?<Rider>, ghost s: seq<Person>, at: int, limit: int)
    returns (nearest: Person, distance: int)
    requires Linked(s) && s != [] && head == At(s, 0)
    ensures Sought(s, |s|, at, limit, nearest, distance)
  {
    hide Linked, Sought;
    nearest, distance := head, limit;
    var person: Node?<Rider> := head;
    ghost var i := 0;
    SoughtStart(s, at, limit);
    while person != null
      invariant i <= |s| && person == At(s, i) && Sought(s, i, at, limit, nearest, distance)
      decreases |s| - i
    {
      CursorFacts(s, [], i);
      SoughtNext(s, i, at, limit, nearest, distance);
      var d := Abs(person.item.from - at);
      if d < distance {
        distance := d;
        nearest := person;
      }
      person := person.next;
      i := i + 1;
    }
    CursorEnd(s, i);
  }

  method CountList(first: Node?<Rider>, ghost s: seq<Person>) returns (n: nat)
    requires Linked(s) && first == At(s, 0)
    ensures n == |s|
  {
    hide Linked, At;
    n := 0;
    var person := first;
    AtEnd(s);
    while person != null
      invariant n <= |s| && person == At(s, n)
      decreases |s| - n
    {
      CursorFacts(s, [], n);
      person := person.next;
      n := n + 1;
    }
    CursorEnd(s, n);
  }

  class Elevator {
    var currentFloor: int
    var nPeople: int
    var people: Node?<Rider>
    ghost var aboard: seq<Person>

    ghost predicate Valid()
      reads this`nPeople, this`people, this`aboard, aboard
    {
      Linked(aboard) && Distinct(aboard) && people == At(aboard, 0) && nPeople == |aboard|
    }

    constructor ()
      ensures Valid() && aboard == [] && currentFloor == 0
    {
      currentFloor, nPeople, people, aboard := 0, 0, null, [];
    }

    /** `move_to_dest_floor`; `timesup` and `late` are the flag of the queue before and after the move. */
    method MoveToDestFloor(destFloor: int, timesup: bool, late: bool)
      requires destFloor >= 0
      modifies this`currentFloor
      ensures currentFloor == if timesup || late then old(currentFloor) else destFloor
    {
      if timesup {
        return;
      }
      if late {
        return;
      }
      currentFloor := destFloor;
    }

    method Unlink(person: Person, ghost k: nat)
      requires Valid() && k < |aboard| && aboard[k] == person
      modifies this`nPeople, this`people, this`aboard, aboard
      ensures Valid() && aboard == Drop(old(aboard), k)
      ensures person.prev == null && person.next == null && Apart(aboard, [person])
    {
      hide Linked, Distinct, Apart, Drop;
      DropApart(aboard, k);
      NeighboursAt(aboard, k);
      if person.prev == null {
        people := person.next;
      }
      Detach(person, aboard, k);
      nPeople := nPeople - 1;
      aboard := Drop(aboard, k);
    }

    /** `drop_people`; `timesup` is the flag of the queue as it is read at the start. */
    method DropPeople(timesup: bool) returns (nDropped: nat, ghost dropped: seq<Rider>)
      requires Valid()
      modifies this`nPeople, this`people, this`aboard, aboard
      ensures Valid() && nDropped == |dropped| && Among(aboard, old(aboard))
      ensures timesup ==> aboard == old(aboard) && dropped == []
      ensures !timesup ==> var p := ArrivedAt(currentFloor);
                           Items(aboard) == Kept(old(Items(aboard)), p) && dropped == Removed(old(Items(aboard)), p)
      ensures !timesup ==> forall r :: r in Items(aboard) ==> r.to != currentFloor
      ensures forall r :: r in dropped ==> r.to == currentFloor
    {
      hide Linked, Distinct, Drop, Passed, Items;
      NoneTaken(aboard);
      dropped := [];
      if people == null || nPeople == 0 || timesup {
        return 0, [];
      }
      var head: Node?<Rider> := null;
      ghost var taken: seq<Person> := [];
      ghost var all, k, i := aboard, 0, 0;
      ghost var p := ArrivedAt(currentFloor);
      var person := people;
      PassedStart(all, p);
      while person != null
        invariant Valid() && Linked(taken) && Distinct(taken) && Apart(taken, aboard)
        invariant head == At(taken, 0)
        invariant Passed(all, i, p, aboard, k, taken) && person == At(aboard, k) && k <= |aboard|
        invariant Among(taken, all) && Among(aboard, all)
        decreases |aboard| - k
      {
        CursorFacts(aboard, taken, k);
        PassedNext(all, i, p, aboard, k, taken);
        var next := person.next;
        if person.item.to == currentFloor {
          MoveFacts(aboard, taken, k);
          Unlink(person, k);
          PushFront(person, head, taken);
          head := person;
          taken := [person] + taken;
        } else {
          k := k + 1;
        }
        i := i + 1;
        person := next;
      }
      CursorEnd(aboard, k);
      PassedEnd(all, i, p, aboard, k, taken);
      nDropped := CountList(head, taken);
      dropped := Items(taken);
      ArrivalsSplit(Items(all), currentFloor);
    }

    /** `letin_people`. `late` is the queue's flag as it is read after `PopPeople` has returned nobody. */
    method LetinPeople(queue: PersonQueue, direction: int, destFloor: int, nFloors: int, late: bool)
      returns (status: int, dest: int, ghost boarded: seq<Rider>)
      requires Valid() && queue.Valid() && Apart(aboard, queue.people)
      requires direction != 0 && currentFloor >= 0
      requires (queue.timesup || queue.people != []) && (queue.timesup ==> late)
      modifies this`nPeople, this`people, this`aboard, aboard
      modifies queue`number, queue`head, queue`tail, queue`people, queue.people
      ensures Valid() && queue.Valid() && Apart(aboard, queue.people)
      ensures Among(queue.people, old(queue.people)) && Among(aboard, old(aboard) + old(queue.people))
      ensures queue.timesup ==> boarded == [] && Items(queue.people) == old(Items(queue.people))
      ensures !queue.timesup ==>
                var p := Boarding(currentFloor, direction);
                && boarded == Removed(old(Items(queue.people)), p)
                && Items(queue.people) == Kept(old(Items(queue.people)), p)
      ensures Items(aboard) == old(Items(aboard)) + boarded
      ensures !queue.timesup ==> forall r :: r in Items(queue.people) && r.from == currentFloor ==>
                                   if direction > 0 then r.to <= currentFloor else r.to >= currentFloor
      ensures forall r :: r in boarded ==>
                r.from == currentFloor && if direction > 0 then r.to > currentFloor else r.to < currentFloor
      ensures status == if boarded == [] && late then -1 else 1
      ensures dest == if status == -1 then destFloor else NextStop(Items(aboard), currentFloor, nFloors)
    {
      hide Linked, Distinct, Items, Kept, Removed, NextStop;
      var person, count;
      ghost var taken;
      person, count, taken := queue.PopPeople(currentFloor, direction);
      boarded := Items(taken);
      ConcatFacts(aboard, taken, queue.people);
      ItemsFacts(aboard, taken);
      if person == null && late {
        return -1, destFloor, boarded;
      }
      status := 1;
      dest := TakeIn(person, count, taken, nFloors);
    }

    /** The part of `letin_people` that follows its early return. */
    method TakeIn(person: Node?<Rider>, count: nat, ghost taken: seq<Person>, nFloors: int) returns (dest: int)
      requires Valid() && Linked(taken) && person == At(taken, 0) && count == |taken|
      requires Distinct(aboard + taken) && Distinct(taken) && Apart(aboard, taken)
      modifies this`nPeople, this`people, this`aboard, aboard, taken
      ensures Valid() && aboard == old(aboard) + taken
      ensures dest == NextStop(Items(aboard), currentFloor, nFloors)
    {
      hide Linked, Distinct, Scanned, Items, NextStop;
      ScannedStart(aboard, currentFloor, nFloors);
      var last, stop, distance := ScanStops(people, aboard, 0, currentFloor, nFloors, -1, nFloors);
      ScannedExtend(aboard, taken, currentFloor, nFloors, stop, distance);
      Concat(person, last, taken);
      ghost var n := |aboard|;
      aboard := aboard + taken;
      nPeople := nPeople + count;
      AtConcat(old(aboard), taken, n);
      last, stop, distance := ScanStops(person, aboard, n, currentFloor, nFloors, stop, distance);
      ScannedEnd(aboard, currentFloor, nFloors, stop, distance);
      dest := stop;
    }

    /** The boarding list goes behind the people aboard. */
    method Concat(person: Node?<Rider>, last: Node?<Rider>, ghost taken: seq<Person>)
      requires Valid() && Linked(taken) && person == At(taken, 0) && last == At(aboard, |aboard| - 1)
      requires Distinct(taken) && Apart(aboard, taken)
      modifies this`people, last, person
      ensures Linked(aboard + taken) && people == At(aboard + taken, 0)
    {
      if last == null {
        people := person;
      } else {
        last.next := person;
      }
      if person != null {
        person.prev := last;
      }
      ConcatLinks(aboard, taken);
      AtConcat(aboard, taken, 0);
    }

    /** `make_sure_direction`, after its wait loop. */
    method MakeSureDirection(queue: PersonQueue, nFloors: int, direction: int) returns (dest: int, newDirection: int)
      requires queue.Valid() && (queue.timesup || queue.people != [])
      ensures queue.timesup ==> dest == -1 && newDirection == direction
      ensures !queue.timesup ==> (dest, newDirection) == Choose(Items(queue.people), currentFloor, nFloors)
    {
      if queue.timesup {
        return -1, direction;
      }
      hide Linked, Distinct, Sought, Choose, Items;
      ghost var s := queue.people;
      var nearest, distance := FindNearest(queue.head, s, currentFloor, nFloors);
      SoughtEnd(s, currentFloor, nFloors, nearest, distance);
      if distance != 0 {
        newDirection := if nearest.item.from > currentFloor then 1 else -1;
        dest := nearest.item.from;
      } else {
        newDirection := if nearest.item.to > currentFloor then 1 else -1;
        dest := currentFloor;
      }
    }
  }

  lemma ConcatFacts(s: seq<Person>, t: seq<Person>, u: seq<Person>)
    requires Distinct(s) && Distinct(t) && Apart(s, u) && Apart(s, t) && Apart(t, u)
    ensures Distinct(s + t) && Apart(s + t, u)
  {
  }
}
