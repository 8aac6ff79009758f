/** People of the elevator simulator, and the list computations of elevator/improved/people.c and elevator.c on
    values: who is taken off a list, who stays, and which floor is nearest. */
module Riders {
  datatype Rider = Rider(id: nat, from: int, to: int)

  function Abs(x: int): (distance: nat)
    ensures distance == x || distance == -x
  {
    if x < 0 then -x else x
  }

  /** `to` lies beyond `from` in the direction: 1 is up, -1 is down. */
  predicate Forward(from: int, to: int, direction: int) { (to - from) * direction > 0 }

  lemma ForwardCases(from: int, to: int, direction: int)
    ensures direction > 0 ==> (Forward(from, to, direction) <==> to > from)
    ensures direction < 0 ==> (Forward(from, to, direction) <==> to < from)
  {
  }

  /** The people that an elevator at `floor` going in `direction` takes from the waiting queue. */
  function Boarding(floor: int, direction: int): Rider -> bool {
    (r: Rider) => r.from == floor && Forward(r.from, r.to, direction)
  }

  function ArrivedAt(floor: int): Rider -> bool {
    (r: Rider) => r.to == floor
  }

  // ----- Selective removal ---------------------------------------------------------------------------

  /** Those that stay on the list, in their order. */
  function Kept<T>(s: seq<T>, p: T -> bool): seq<T> {
    if s == [] then [] else
      var n := |s| - 1;
      Kept(s[..n], p) + if p(s[n]) then [] else [s[n]]
  }

  /** Those taken off the list, each put at the head of the result. */
  function Removed<T>(s: seq<T>, p: T -> bool): seq<T> {
    if s == [] then [] else
      var n := |s| - 1;
      (if p(s[n]) then [s[n]] else []) + Removed(s[..n], p)
  }

  lemma RemovalStep<T>(s: seq<T>, p: T -> bool, i: nat)
    requires i < |s|
    ensures Kept(s[..i + 1], p) == Kept(s[..i], p) + if p(s[i]) then [] else [s[i]]
    ensures Removed(s[..i + 1], p) == (if p(s[i]) then [s[i]] else []) + Removed(s[..i], p)
  {
    assert s[..i + 1][..i] == s[..i];
  }

  lemma RemovalLast<T>(s: seq<T>, p: T -> bool)
    requires s != []
    ensures var n := |s| - 1;
            if p(s[n]) then Kept(s, p) == Kept(s[..n], p) && Removed(s, p) == [s[n]] + Removed(s[..n], p)
            else Kept(s, p) == Kept(s[..n], p) + [s[n]] && Removed(s, p) == Removed(s[..n], p)
  {
  }

  /** The positions at which `p` has the value `b`, in increasing order. */
  ghost function Positions<T>(s: seq<T>, p: T -> bool, b: bool): (ix: seq<nat>)
    ensures forall k :: 0 <= k < |ix| ==> ix[k] < |s| && p(s[ix[k]]) == b
    ensures forall j, k :: 0 <= j < k < |ix| ==> ix[j] < ix[k]
    ensures forall i :: 0 <= i < |s| && p(s[i]) == b ==> i in ix
  {
    if s == [] then [] else
      var n := |s| - 1;
      var ix := Positions(s[..n], p, b);
      assert forall i :: 0 <= i < n ==> s[..n][i] == s[i];
      if p(s[n]) == b then ix + [n] else ix
  }

  /** Removal splits a list exactly, by position: those that stay keep their order. */
  lemma {:induction false} KeptInOrder<T>(s: seq<T>, p: T -> bool)
    ensures var ix := Positions(s, p, false);
            |Kept(s, p)| == |ix| && forall k :: 0 <= k < |ix| ==> Kept(s, p)[k] == s[ix[k]]
  {
    if s == [] {
    } else {
      KeptInOrder(s[..|s| - 1], p);
    }
  }

  /** Those that leave come out in reverse order. */
  lemma {:induction false} RemovedInReverse<T>(s: seq<T>, p: T -> bool)
    ensures var ix := Positions(s, p, true);
            |Removed(s, p)| == |ix| && forall k :: 0 <= k < |ix| ==> Removed(s, p)[|ix| - 1 - k] == s[ix[k]]
  {
    if s == [] {
    } else {
      RemovedInReverse(s[..|s| - 1], p);
    }
  }

  lemma {:induction false} RemovalConserves<T>(s: seq<T>, p: T -> bool)
    ensures multiset(s) == multiset(Kept(s, p)) + multiset(Removed(s, p))
    ensures |s| == |Kept(s, p)| + |Removed(s, p)|
    ensures forall x :: x in Kept(s, p) ==> x in s && !p(x)
    ensures forall x :: x in Removed(s, p) ==> x in s && p(x)
  {
    if s == [] {
    } else {
      var n := |s| - 1;
      assert s == s[..n] + [s[n]];
      RemovalConserves(s[..n], p);
    }
  }

  /** Nobody stays behind who waits on the floor and wants to go on in the direction, and only they are taken. */
  lemma BoardingSplits(s: seq<Rider>, floor: int, direction: int)
    requires direction != 0
    ensures forall r :: r in Kept(s, Boarding(floor, direction)) && r.from == floor ==>
              if direction > 0 then r.to <= floor else r.to >= floor
    ensures forall r :: r in Removed(s, Boarding(floor, direction)) ==>
              r.from == floor && if direction > 0 then r.to > floor else r.to < floor
  {
    RemovalConserves(s, Boarding(floor, direction));
    forall r | r in s && r.from == floor
      ensures Boarding(floor, direction)(r) <==> if direction > 0 then r.to > floor else r.to < floor
    {
      ForwardCases(r.from, r.to, direction);
    }
  }

  /** Nobody stays aboard who wants the floor, and only they get off. */
  lemma ArrivalsSplit(s: seq<Rider>, floor: int)
    ensures forall r :: r in Kept(s, ArrivedAt(floor)) ==> r.to != floor
    ensures forall r :: r in Removed(s, ArrivedAt(floor)) ==> r.to == floor
  {
    RemovalConserves(s, ArrivedAt(floor));
  }

  // ----- The nearest floor ---------------------------------------------------------------------------

  /** A scan for a smaller and smaller distance below `limit`: the position found, or the length of the list when
      no floor is that close, and its distance, or `limit`. */
  function Scan(floors: seq<int>, at: int, limit: int): (r: (nat, int))
    ensures r.0 <= |floors| && r.1 == if r.0 < |floors| then Abs(floors[r.0] - at) else limit
  {
    if floors == [] then (0, limit) else
      var n := |floors| - 1;
      var (k, distance) := Scan(floors[..n], at, limit);
      if Abs(floors[n] - at) < distance then (n, Abs(floors[n] - at))
      else (if k < n then k else n + 1, distance)
  }

  lemma ScanStep(floors: seq<int>, at: int, limit: int, i: nat)
    requires i < |floors|
    ensures var (k, distance) := Scan(floors[..i], at, limit);
            Scan(floors[..i + 1], at, limit)
            == if Abs(floors[i] - at) < distance then (i, Abs(floors[i] - at))
               else (if k < i then k else i + 1, distance)
  {
    assert floors[..i + 1][..i] == floors[..i];
  }

  lemma {:induction false} ScanIsLeast(floors: seq<int>, at: int, limit: int)
    ensures var distance := Scan(floors, at, limit).1;
            distance <= limit && forall j :: 0 <= j < |floors| ==> distance <= Abs(floors[j] - at)
  {
    if floors == [] {
    } else {
      hide Abs;
      ScanIsLeast(floors[..|floors| - 1], at, limit);
    }
  }

  lemma {:induction false} ScanIsFirst(floors: seq<int>, at: int, limit: int)
    ensures var (k, distance) := Scan(floors, at, limit);
            k < |floors| ==> forall j :: 0 <= j < k ==> distance < Abs(floors[j] - at)
  {
    if floors == [] {
    } else {
      hide Abs;
      var n := |floors| - 1;
      ScanIsFirst(floors[..n], at, limit);
      ScanIsLeast(floors[..n], at, limit);
      assert forall j :: 0 <= j < n ==> floors[..n][j] == floors[j];
    }
  }

  /** The scan finds the first of the nearest floors, if one is nearer than the limit. */
  lemma {:induction false} ScanFindsNearest(floors: seq<int>, at: int, limit: int)
    ensures var (k, distance) := Scan(floors, at, limit);
            && distance <= limit
            && (k == |floors| <==> forall j :: 0 <= j < |floors| ==> Abs(floors[j] - at) >= limit)
            && (forall j :: 0 <= j < |floors| ==> distance <= Abs(floors[j] - at))
            && (forall j :: 0 <= j < k && k < |floors| ==> distance < Abs(floors[j] - at))
  {
    ScanIsLeast(floors, at, limit);
    ScanIsFirst(floors, at, limit);
    ScanFound(floors, at, limit);
  }

  lemma ScanFound(floors: seq<int>, at: int, limit: int)
    ensures Scan(floors, at, limit).0 < |floors| ==> Scan(floors, at, limit).1 < limit
  {
  }

  function Origins(riders: seq<Rider>): (floors: seq<int>)
    ensures |floors| == |riders| && forall i :: 0 <= i < |riders| ==> floors[i] == riders[i].from
  {
    seq(|riders|, i requires 0 <= i < |riders| => riders[i].from)
  }

  function Destinations(riders: seq<Rider>): (floors: seq<int>)
    ensures |floors| == |riders| && forall i :: 0 <= i < |riders| ==> floors[i] == riders[i].to
  {
    seq(|riders|, i requires 0 <= i < |riders| => riders[i].to)
  }

  /** The next stop for the people aboard: -1 when there is none. */
  function NextStop(riders: seq<Rider>, floor: int, nFloors: int): int {
    var k := Scan(Destinations(riders), floor, nFloors).0;
    if k < |riders| then riders[k].to else -1
  }

  /** `make_sure_direction` for an empty elevator when people wait: the floor to go to, and the direction. */
  function Choose(waiting: seq<Rider>, floor: int, nFloors: int): (int, int)
    requires waiting != []
  {
    var (k, distance) := Scan(Origins(waiting), floor, nFloors);
    var nearest := if k < |waiting| then waiting[k] else waiting[0];
    if distance != 0
    then (nearest.from, if nearest.from > floor then 1 else -1)
    else (floor, if nearest.to > floor then 1 else -1)
  }
}
