/** C `unsigned` counters and the slots they index. */
module Unsigned {

  const UINT_RANGE := 0x1_0000_0000

  /** A C `unsigned`: increments and differences are taken modulo 2^32. */
  type uint32 = x: int | 0 <= x < UINT_RANGE

  function Plus1(x: uint32): uint32 { (x + 1) % UINT_RANGE }
  function Minus(x: uint32, y: uint32): uint32 { (x - y) % UINT_RANGE }

  lemma MultipleGap(length: nat, q: int)
    ensures q >= 1 ==> length * q >= length
    ensures q <= 0 ==> length * q <= 0
  {
  }

  /** Two counters less than `length` apart use different slots. */
  lemma DistinctSlots(a: nat, b: nat, length: nat)
    requires a < b < a + length
    ensures a % length != b % length
  {
    var q := b / length - a / length;
    assert b - a == length * q + (b % length - a % length);
    MultipleGap(length, q);
  }

  lemma ModuloUnique(x: int, q: int, r: int, m: nat)
    requires m > 0 && x == q * m + r && 0 <= r < m
    ensures x % m == r
  {
    var d := q - x / m;
    assert m * d == x % m - r;
    MultipleGap(m, d);
    MultipleGap(m, -d);
  }

  /** Reducing a counter modulo a multiple of the size first does not move its slot. */
  lemma SlotSurvivesWrap(x: nat, range: nat, size: nat)
    requires size > 0 && range > 0 && range % size == 0
    ensures x % range % size == x % size
  {
    var k := range / size;
    var q := x / range;
    var y := x % range;
    assert range == size * k;
    assert x == range * q + y;
    assert x == (k * q + y / size) * size + y % size by {
      assert range * q == size * k * q == (k * q) * size;
      assert y == (y / size) * size + y % size;
    }
    ModuloUnique(x, k * q + y / size, y % size, size);
  }

  /** Unsigned subtraction gives the true distance of two counters whatever wraps lie between. */
  lemma DifferenceSurvivesWrap(x: nat, y: nat)
    requires y <= x < y + UINT_RANGE
    ensures Minus(x % UINT_RANGE, y % UINT_RANGE) == x - y
  {
  }

  lemma IncrementSurvivesWrap(x: nat)
    ensures Plus1(x % UINT_RANGE) == (x + 1) % UINT_RANGE
  {
  }

  /** The slot of the `k`-th message after `start`. */
  function SlotOf(start: nat, k: nat, size: nat): (slot: nat)
    requires size > 0
    ensures slot < size
  {
    (start + k) % size
  }

  lemma SlotsDiffer(start: nat, a: nat, b: nat, size: nat)
    requires a < b < a + size
    ensures SlotOf(start, a, size) != SlotOf(start, b, size)
  {
    DistinctSlots(start + a, start + b, size);
  }
}
