/** Sequential and parallel multiplication of square integer matrices (matrix/PMM). Workers claim cells from a
    shared task board by linear probing from a random start. */
module MatrixMultiply {
  import opened Options
  import opened Unsigned
  import opened Sums

  type Matrix = seq<seq<int>>

  predicate Square(m: Matrix, n: nat) {
    |m| == n && forall i :: 0 <= i < n ==> |m[i]| == n
  }

  /** The first `k` terms of the inner product of row `i` of `a` and column `j` of `b`. */
  function Dot(a: Matrix, b: Matrix, i: nat, j: nat, k: nat): int
    requires i < |a| && k <= |a[i]| && k <= |b|
    requires forall x :: 0 <= x < k ==> j < |b[x]|
  {
    if k == 0 then 0 else Dot(a, b, i, j, k - 1) + a[i][k - 1] * b[k - 1][j]
  }

  predicate IsProduct(c: Matrix, a: Matrix, b: Matrix, n: nat)
    requires Square(a, n) && Square(b, n)
  {
    Square(c, n) && forall i, j :: 0 <= i < n && 0 <= j < n ==> c[i][j] == Dot(a, b, i, j, n)
  }

  lemma ProductUnique(c: Matrix, c': Matrix, a: Matrix, b: Matrix, n: nat)
    requires Square(a, n) && Square(b, n) && IsProduct(c, a, b, n) && IsProduct(c', a, b, n)
    ensures c == c'
  {
    forall i | 0 <= i < n
      ensures c[i] == c'[i]
    {
    }
  }

  // ----- What makes a matrix the product -------------------------------------------------------------

  /** Row `i` of `a` is `s` in column `p` and zero elsewhere. */
  predicate IsUnitRow(a: Matrix, i: nat, p: nat, s: int)
    requires i < |a|
  {
    p < |a[i]| && forall k :: 0 <= k < |a[i]| ==> a[i][k] == if k == p then s else 0
  }

  /** Row `i` of `a` is the sum of those of `a1` and `a2`. */
  predicate IsRowSum(a: Matrix, a1: Matrix, a2: Matrix, i: nat)
    requires i < |a| && i < |a1| && i < |a2|
  {
    |a[i]| == |a1[i]| == |a2[i]| && forall k :: 0 <= k < |a[i]| ==> a[i][k] == a1[i][k] + a2[i][k]
  }

  predicate IsIdentity(m: Matrix, n: nat) {
    Square(m, n) && forall i, j :: 0 <= i < n && 0 <= j < n ==> m[i][j] == if i == j then 1 else 0
  }

  lemma {:induction false} DotOfUnitRow(a: Matrix, b: Matrix, n: nat, i: nat, j: nat, p: nat, s: int, k: nat)
    requires Square(a, n) && Square(b, n) && i < n && j < n && IsUnitRow(a, i, p, s) && k <= n
    ensures Dot(a, b, i, j, k) == if p < k then s * b[p][j] else 0
  {
    if k == 0 {
    } else {
      DotOfUnitRow(a, b, n, i, j, p, s, k - 1);
    }
  }

  lemma {:induction false} DotOfUnitColumn(a: Matrix, b: Matrix, n: nat, i: nat, j: nat, k: nat)
    requires Square(a, n) && IsIdentity(b, n) && i < n && j < n && k <= n
    ensures Dot(a, b, i, j, k) == if j < k then a[i][j] else 0
  {
    if k == 0 {
    } else {
      DotOfUnitColumn(a, b, n, i, j, k - 1);
    }
  }

  lemma {:induction false} DotOfRowSum(a: Matrix, a1: Matrix, a2: Matrix, b: Matrix, n: nat, i: nat, j: nat, k: nat)
    requires Square(a, n) && Square(a1, n) && Square(a2, n) && Square(b, n) && i < n && j < n && k <= n
    requires IsRowSum(a, a1, a2, i)
    ensures Dot(a, b, i, j, k) == Dot(a1, b, i, j, k) + Dot(a2, b, i, j, k)
  {
    if k == 0 {
    } else {
      DotOfRowSum(a, a1, a2, b, n, i, j, k - 1);
      assert (a1[i][k - 1] + a2[i][k - 1]) * b[k - 1][j] == a1[i][k - 1] * b[k - 1][j] + a2[i][k - 1] * b[k - 1][j];
    }
  }

  /** Two laws of the product. The first: a unit row of the left matrix picks a multiple of a row of the right
      one. */
  lemma ProductOfUnitRow(c: Matrix, a: Matrix, b: Matrix, n: nat, i: nat, p: nat, s: int)
    requires Square(a, n) && Square(b, n) && IsProduct(c, a, b, n) && i < n && IsUnitRow(a, i, p, s)
    ensures forall j :: 0 <= j < n ==> c[i][j] == s * b[p][j]
  {
    forall j | 0 <= j < n
      ensures c[i][j] == s * b[p][j]
    {
      DotOfUnitRow(a, b, n, i, j, p, s, n);
    }
  }

  /** The second: a sum of rows of the left matrix gives the sum of the rows of the products. */
  lemma ProductOfRowSum(c: Matrix, c1: Matrix, c2: Matrix, a: Matrix, a1: Matrix, a2: Matrix, b: Matrix, n: nat, i: nat)
    requires Square(a, n) && Square(a1, n) && Square(a2, n) && Square(b, n) && i < n && IsRowSum(a, a1, a2, i)
    requires IsProduct(c, a, b, n) && IsProduct(c1, a1, b, n) && IsProduct(c2, a2, b, n)
    ensures forall j :: 0 <= j < n ==> c[i][j] == c1[i][j] + c2[i][j]
  {
    forall j | 0 <= j < n
      ensures c[i][j] == c1[i][j] + c2[i][j]
    {
      DotOfRowSum(a, a1, a2, b, n, i, j, n);
    }
  }

  ghost predicate KeepsSquare(f: Matrix -> Matrix, n: nat) {
    forall a :: Square(a, n) ==> Square(f(a), n)
  }

  ghost predicate UnitRowLaw(f: Matrix -> Matrix, b: Matrix, n: nat)
    requires Square(b, n) && KeepsSquare(f, n)
  {
    forall a, i: nat, p: nat, s :: Square(a, n) && i < n && IsUnitRow(a, i, p, s) ==>
      forall j :: 0 <= j < n ==> f(a)[i][j] == s * b[p][j]
  }

  ghost predicate RowSumLaw(f: Matrix -> Matrix, n: nat)
    requires KeepsSquare(f, n)
  {
    forall a, a1, a2, i: nat :: Square(a, n) && Square(a1, n) && Square(a2, n) && i < n && IsRowSum(a, a1, a2, i) ==>
      forall j :: 0 <= j < n ==> f(a)[i][j] == f(a1)[i][j] + f(a2)[i][j]
  }

  /** `f` obeys the two laws for every left matrix. */
  ghost predicate ObeysLaws(f: Matrix -> Matrix, b: Matrix, n: nat)
    requires Square(b, n)
  {
    KeepsSquare(f, n) && UnitRowLaw(f, b, n) && RowSumLaw(f, n)
  }

  function WithRow(a: Matrix, i: nat, n: nat, row: int -> int): (a': Matrix)
    requires Square(a, n) && i < n
    ensures Square(a', n) && forall k :: 0 <= k < n ==> a'[i][k] == row(k)
  {
    a[i := seq(n, k => row(k))]
  }

  /** `a` with only the first `k` columns of row `i`. */
  function FirstColumns(a: Matrix, i: nat, k: nat, n: nat): (a': Matrix)
    requires Square(a, n) && i < n && k <= n
    ensures Square(a', n) && forall x :: 0 <= x < n ==> a'[i][x] == if x < k then a[i][x] else 0
  {
    WithRow(a, i, n, x => if 0 <= x < k then a[i][x] else 0)
  }

  /** Column `k` of the row is all that is new in `k + 1` columns. */
  lemma NextColumn(a: Matrix, i: nat, k: nat, n: nat) returns (unit: Matrix)
    requires Square(a, n) && i < n && k < n
    ensures Square(unit, n) && IsUnitRow(unit, i, k, a[i][k])
    ensures IsRowSum(FirstColumns(a, i, k + 1, n), FirstColumns(a, i, k, n), unit, i)
  {
    unit := WithRow(a, i, n, x => if x == k then a[i][k] else 0);
  }

  lemma NoColumns(a: Matrix, i: nat, n: nat)
    requires Square(a, n) && i < n
    ensures IsUnitRow(FirstColumns(a, i, 0, n), i, 0, 0)
  {
  }

  lemma AllColumns(a: Matrix, i: nat, n: nat)
    requires Square(a, n) && i < n
    ensures FirstColumns(a, i, n, n) == a
  {
    assert FirstColumns(a, i, n, n)[i] == a[i];
  }

  lemma ByUnitRow(f: Matrix -> Matrix, a: Matrix, b: Matrix, n: nat, i: nat, p: nat, s: int)
    requires Square(b, n) && KeepsSquare(f, n) && UnitRowLaw(f, b, n)
    requires Square(a, n) && i < n && IsUnitRow(a, i, p, s)
    ensures Square(f(a), n) && forall j :: 0 <= j < n ==> f(a)[i][j] == s * b[p][j]
  {
  }

  lemma ByRowSum(f: Matrix -> Matrix, a: Matrix, a1: Matrix, a2: Matrix, n: nat, i: nat)
    requires KeepsSquare(f, n) && RowSumLaw(f, n)
    requires Square(a, n) && Square(a1, n) && Square(a2, n) && i < n && IsRowSum(a, a1, a2, i)
    ensures Square(f(a), n) && Square(f(a1), n) && Square(f(a2), n)
    ensures forall j :: 0 <= j < n ==> f(a)[i][j] == f(a1)[i][j] + f(a2)[i][j]
  {
  }

  lemma {:induction false} LawsGiveDot(f: Matrix -> Matrix, a: Matrix, b: Matrix, n: nat, i: nat, j: nat, k: nat)
    requires Square(a, n) && Square(b, n) && ObeysLaws(f, b, n) && i < n && j < n && k <= n
    ensures Square(f(FirstColumns(a, i, k, n)), n) && f(FirstColumns(a, i, k, n))[i][j] == Dot(a, b, i, j, k)
  {
    hide FirstColumns, IsRowSum, IsUnitRow, UnitRowLaw, RowSumLaw;
    if k == 0 {
      NoColumns(a, i, n);
      ByUnitRow(f, FirstColumns(a, i, 0, n), b, n, i, 0, 0);
    } else {
      LawsGiveDot(f, a, b, n, i, j, k - 1);
      var unit := NextColumn(a, i, k - 1, n);
      ByUnitRow(f, unit, b, n, i, k - 1, a[i][k - 1]);
      ByRowSum(f, FirstColumns(a, i, k, n), FirstColumns(a, i, k - 1, n), unit, n, i);
    }
  }

  /** The two laws leave no choice: whatever obeys them is the product. */
  lemma LawsDetermineProduct(f: Matrix -> Matrix, a: Matrix, b: Matrix, n: nat)
    requires Square(a, n) && Square(b, n) && ObeysLaws(f, b, n)
    ensures IsProduct(f(a), a, b, n)
  {
    hide FirstColumns, UnitRowLaw, RowSumLaw;
    forall i, j | 0 <= i < n && 0 <= j < n
      ensures f(a)[i][j] == Dot(a, b, i, j, n)
    {
      LawsGiveDot(f, a, b, n, i, j, n);
      AllColumns(a, i, n);
    }
  }

  /** The identity matrix on either side leaves the other matrix. */
  lemma ProductWithIdentity(c: Matrix, a: Matrix, b: Matrix, n: nat)
    requires Square(a, n) && Square(b, n)
    ensures IsIdentity(a, n) ==> (IsProduct(c, a, b, n) <==> c == b)
    ensures IsIdentity(b, n) ==> (IsProduct(c, a, b, n) <==> c == a)
  {
    if IsIdentity(a, n) {
      forall i, j | 0 <= i < n && 0 <= j < n
        ensures b[i][j] == Dot(a, b, i, j, n)
      {
        DotOfUnitRow(a, b, n, i, j, i, 1, n);
      }
      if IsProduct(c, a, b, n) {
        ProductUnique(c, b, a, b, n);
      }
    }
    if IsIdentity(b, n) {
      forall i, j | 0 <= i < n && 0 <= j < n
        ensures a[i][j] == Dot(a, b, i, j, n)
      {
        DotOfUnitColumn(a, b, n, i, j, n);
      }
      if IsProduct(c, a, b, n) {
        ProductUnique(c, a, a, b, n);
      }
    }
  }

  // ----- The sequential form -------------------------------------------------------------------------

  ghost function Contents(m: array2<int>): (rows: Matrix)
    reads m
    ensures |rows| == m.Length0
    ensures forall i :: 0 <= i < m.Length0 ==> |rows[i]| == m.Length1
    ensures forall i, j :: 0 <= i < m.Length0 && 0 <= j < m.Length1 ==> rows[i][j] == m[i, j]
  {
    seq(m.Length0, i requires 0 <= i < m.Length0 reads m =>
      seq(m.Length1, j requires 0 <= j < m.Length1 reads m => m[i, j]))
  }

  /** The result is accumulated onto whatever `c` held. */
  method SequentialMultiply(a: array2?<int>, b: array2?<int>, c: array2?<int>, dimension: int) returns (status: int)
    requires a != null ==> a.Length0 == a.Length1 == dimension
    requires b != null ==> b.Length0 == b.Length1 == dimension
    requires c != null ==> c.Length0 == c.Length1 == dimension && c != a && c != b
    modifies c
    ensures status == if a == null || b == null || c == null || dimension < 1 then -1 else 1
    ensures status == -1 && c != null ==> Contents(c) == old(Contents(c))
    ensures status == 1 ==>
              forall i, j :: 0 <= i < dimension && 0 <= j < dimension ==>
                c[i, j] == old(c[i, j]) + old(Dot(Contents(a), Contents(b), i, j, dimension))
    ensures status == 1 && (forall i, j :: 0 <= i < dimension && 0 <= j < dimension ==> old(c[i, j]) == 0) ==>
              IsProduct(Contents(c), old(Contents(a)), old(Contents(b)), dimension)
  {
    if a == null || b == null || c == null || dimension < 1 {
      return -1;
    }
    ghost var ma, mb := Contents(a), Contents(b);
    for i := 0 to dimension
      invariant Contents(a) == ma && Contents(b) == mb
      invariant forall x, y :: 0 <= x < dimension && 0 <= y < dimension ==>
                  c[x, y] == old(c[x, y]) + if x < i then Dot(ma, mb, x, y, dimension) else 0
    {
      for j := 0 to dimension
        invariant Contents(a) == ma && Contents(b) == mb
        invariant forall x, y :: 0 <= x < dimension && 0 <= y < dimension ==>
                    c[x, y] == old(c[x, y]) + if x < i || (x == i && y < j) then Dot(ma, mb, x, y, dimension) else 0
      {
        for k := 0 to dimension
          invariant Contents(a) == ma && Contents(b) == mb
          invariant c[i, j] == old(c[i, j]) + Dot(ma, mb, i, j, k)
          invariant forall x, y :: 0 <= x < dimension && 0 <= y < dimension && (x != i || y != j) ==>
                      c[x, y] == old(c[x, y]) + if x < i || (x == i && y < j) then Dot(ma, mb, x, y, dimension) else 0
        {
          c[i, j] := c[i, j] + a[i, k] * b[k, j];
          assert Contents(a) == ma && Contents(b) == mb;
        }
      }
    }
    return 1;
  }

  // ----- The task board ------------------------------------------------------------------------------

  /** The first cell still available at or after `num`, going round the board once; `d` cells have been
      tested. */
  function Probe(board: seq<bool>, num: nat, d: nat): (r: Option<nat>)
    requires |board| > 0
    ensures r.Some? ==> r.value < |board| && board[r.value]
    decreases |board| - d
  {
    if d >= |board| then None
    else if board[(num + d) % |board|] then Some((num + d) % |board|)
    else Probe(board, num, d + 1)
  }

  lemma {:induction false} ProbeMisses(board: seq<bool>, num: nat, d: nat, e: nat)
    requires |board| > 0 && Probe(board, num, d).None? && d <= e < |board|
    ensures !board[(num + e) % |board|]
    decreases |board| - d
  {
    if d == e {
    } else {
      ProbeMisses(board, num, d + 1, e);
    }
  }

  /** "No task" is reported only when every cell has been taken, wherever the probe starts. */
  lemma ProbeExhaustive(board: seq<bool>, num: nat)
    requires |board| > 0
    ensures Probe(board, num, 0).None? <==> forall i :: 0 <= i < |board| ==> !board[i]
  {
    if Probe(board, num, 0).None? {
      forall i | 0 <= i < |board|
        ensures !board[i]
      {
        var n := |board|;
        var e := (i - num) % n;
        assert (i - num) == n * ((i - num) / n) + e;
        assert num + e == -((i - num) / n) * n + i;
        ModuloUnique(num + e, -((i - num) / n), i, n);
        ProbeMisses(board, num, 0, e);
      }
    }
  }

  /** `x` cells after `num`, round a board of `n` cells. */
  function RoundTheBoard(num: nat, x: nat, n: nat): (index: nat)
    requires n > 0
    ensures index < n
  {
    (num + x) % n
  }

  /** The cell found is the first one available, going round the board from the start. */
  lemma {:induction false} ProbeFindsFirst(board: seq<bool>, num: nat, d: nat) returns (e: nat)
    requires |board| > 0 && Probe(board, num, d).Some?
    ensures d <= e < |board| && Probe(board, num, d).value == RoundTheBoard(num, e, |board|)
    ensures board[RoundTheBoard(num, e, |board|)]
    ensures forall x :: d <= x < e ==> !board[RoundTheBoard(num, x, |board|)]
    decreases |board| - d
  {
    var here := board[RoundTheBoard(num, d, |board|)];
    ProbeTurn(board, num, d);
    hide RoundTheBoard, Probe;
    if here {
      e := d;
    } else {
      e := ProbeFindsFirst(board, num, d + 1);
    }
  }

  lemma ProbeTurn(board: seq<bool>, num: nat, d: nat)
    requires |board| > 0 && Probe(board, num, d).Some?
    ensures d < |board|
    ensures Probe(board, num, d) == if board[RoundTheBoard(num, d, |board|)] then Some(RoundTheBoard(num, d, |board|))
                                    else Probe(board, num, d + 1)
  {
  }

  method MakeTaskBoard(dimension: nat) returns (board: array<bool>)
    ensures fresh(board) && board.Length == dimension * dimension
    ensures forall i :: 0 <= i < board.Length ==> board[i]
  {
    var size := dimension * dimension;
    board := new bool[size];
    for i := 0 to size
      invariant forall x :: 0 <= x < i ==> board[x]
    {
      board[i] := true;
    }
  }

  /** `start` is the result of `rand`. */
  method GetTask(board: array<bool>, dimension: nat, start: nat) returns (row: int, col: int, found: bool)
    requires board.Length == dimension * dimension && dimension >= 1
    modifies board
    ensures var r := Probe(old(board[..]), start, 0);
            if r.None? then
              !found && board[..] == old(board[..])
            else
              && found && row == r.value / dimension && col == r.value % dimension
              && board[..] == old(board[..])[r.value := false]
  {
    row, col := -1, -1;
    var i := 0;
    var n := board.Length;
    var num := start;
    var index := num % n;
    while !board[index]
      invariant 0 <= i < n && num == start + i && index == num % n
      invariant board[..] == old(board[..])
      invariant Probe(board[..], start, 0) == Probe(board[..], start, i)
      decreases n - i
    {
      num := num + 1;
      index := num % n;
      i := i + 1;
      if i >= n {
        return -1, -1, false;
      }
    }
    board[index] := false;
    row, col, found := index / dimension, index % dimension, true;
  }

  /** The inner loop of a worker. */
  method ComputeCell(a: Matrix, b: Matrix, dimension: nat, row: nat, col: nat) returns (total: int)
    requires Square(a, dimension) && Square(b, dimension) && row < dimension && col < dimension
    ensures total == Dot(a, b, row, col, dimension)
  {
    total := 0;
    for k := 0 to dimension
      invariant total == Dot(a, b, row, col, k)
    {
      total := total + a[row][k] * b[k][col];
    }
  }

  // ----- The parallel form ---------------------------------------------------------------------------

  datatype Worker = Asking | Storing(index: nat) | Stopped

  /** `writes` counts the stores made to each cell. */
  datatype State = State(board: seq<bool>, c: Matrix, workers: seq<Worker>, writes: seq<nat>)

  function Cells(n: nat): nat { n * n }

  predicate ValidIndex(index: nat, n: nat) {
    index < Cells(n)
  }

  function RowOf(index: nat, n: nat): nat
    requires n > 0
  {
    index / n
  }

  function ColOf(index: nat, n: nat): nat
    requires n > 0
  {
    index % n
  }

  lemma CellInRange(index: nat, n: nat)
    requires ValidIndex(index, n)
    ensures n >= 1 && RowOf(index, n) < n && ColOf(index, n) < n
  {
    assert (index / n) * n == n * n + n * (index / n - n);
    MultipleGap(n, index / n - n);
  }

  lemma IndexOfCell(row: nat, col: nat, n: nat)
    requires row < n && col < n
    ensures ValidIndex(row * n + col, n)
    ensures RowOf(row * n + col, n) == row && ColOf(row * n + col, n) == col
  {
    ModuloUnique(row * n + col, row, col, n);
    var q := (row * n + col) / n;
    assert n * q == n * row;
    MultipleGap(n, q - row);
    MultipleGap(n, row - q);
    assert n * q == n * row + n * (q - row);
    assert n * row + n * (n - row) == n * n;
    MultipleGap(n, n - row);
  }

  function Cell(c: Matrix, index: nat, n: nat): int
    requires Square(c, n) && ValidIndex(index, n)
  {
    CellInRange(index, n);
    c[RowOf(index, n)][ColOf(index, n)]
  }

  function Put(c: Matrix, row: nat, col: nat, value: int): Matrix
    requires row < |c| && col < |c[row]|
  {
    c[row := c[row][col := value]]
  }

  function SetCell(c: Matrix, index: nat, n: nat, value: int): (c': Matrix)
    requires Square(c, n) && ValidIndex(index, n)
    ensures Square(c', n) && Cell(c', index, n) == value
  {
    CellInRange(index, n);
    Put(c, RowOf(index, n), ColOf(index, n), value)
  }

  function Entry(a: Matrix, b: Matrix, index: nat, n: nat): int
    requires Square(a, n) && Square(b, n) && ValidIndex(index, n)
  {
    CellInRange(index, n);
    Dot(a, b, RowOf(index, n), ColOf(index, n), n)
  }

  lemma DistinctCells(index: nat, other: nat, n: nat)
    requires n >= 1 && index != other
    ensures RowOf(index, n) != RowOf(other, n) || ColOf(index, n) != ColOf(other, n)
  {
    assert index == n * (index / n) + index % n && other == n * (other / n) + other % n;
  }

  lemma PutElsewhere(c: Matrix, n: nat, row: nat, col: nat, row': nat, col': nat, value: int)
    requires Square(c, n) && row < n && col < n && row' < n && col' < n && (row != row' || col != col')
    ensures Square(Put(c, row, col, value), n) && Put(c, row, col, value)[row'][col'] == c[row'][col']
  {
  }

  lemma SetCellElsewhere(c: Matrix, index: nat, other: nat, n: nat, value: int)
    requires Square(c, n) && ValidIndex(index, n) && ValidIndex(other, n) && index != other
    ensures Cell(SetCell(c, index, n, value), other, n) == Cell(c, other, n)
  {
    CellInRange(index, n);
    CellInRange(other, n);
    DistinctCells(index, other, n);
    hide Put, Square, RowOf, ColOf;
    PutElsewhere(c, n, RowOf(index, n), ColOf(index, n), RowOf(other, n), ColOf(other, n), value);
  }

  predicate WellFormed(s: State, a: Matrix, b: Matrix, n: nat) {
    && n >= 1 && Square(a, n) && Square(b, n) && Square(s.c, n)
    && |s.board| == |s.writes| == Cells(n)
    && forall w :: 0 <= w < |s.workers| && s.workers[w].Storing? ==> ValidIndex(s.workers[w].index, n)
  }

  predicate CanStep(s: State, w: nat) { w < |s.workers| && !s.workers[w].Stopped? }

  /** One call of `getTask` (it holds the board's mutex), or the computation and store of a claimed cell. */
  function Step(s: State, a: Matrix, b: Matrix, n: nat, w: nat, num: nat): State
    requires WellFormed(s, a, b, n) && CanStep(s, w)
  {
    match s.workers[w]
    case Asking =>
      (match Probe(s.board, num, 0)
       case None => s.(workers := s.workers[w := Stopped])
       case Some(index) => s.(board := s.board[index := false], workers := s.workers[w := Storing(index)]))
    case Storing(index) =>
      s.(c := SetCell(s.c, index, n, Entry(a, b, index, n)),
         writes := s.writes[index := s.writes[index] + 1],
         workers := s.workers[w := Asking])
  }

  predicate Init(s: State, n: nat, threads: nat) {
    && Square(s.c, n)
    && s.board == seq(Cells(n), _ => true)
    && s.writes == seq(Cells(n), _ => 0)
    && s.workers == seq(threads, _ => Asking)
  }

  /** Available and untouched, claimed by a worker and not yet written, or written once with its value. */
  ghost predicate CellOk(s: State, a: Matrix, b: Matrix, n: nat, index: nat)
    requires WellFormed(s, a, b, n) && ValidIndex(index, n)
  {
    && (s.board[index] ==> s.writes[index] == 0 && forall w :: 0 <= w < |s.workers| ==> s.workers[w] != Storing(index))
    && (s.writes[index] == 0 && !s.board[index] ==> exists w :: 0 <= w < |s.workers| && s.workers[w] == Storing(index))
    && (s.writes[index] > 0 ==>
          && s.writes[index] == 1
          && Cell(s.c, index, n) == Entry(a, b, index, n)
          && forall w :: 0 <= w < |s.workers| ==> s.workers[w] != Storing(index))
  }

  ghost predicate Inv(s: State, a: Matrix, b: Matrix, n: nat) {
    && WellFormed(s, a, b, n)
    && (forall index: nat :: ValidIndex(index, n) ==> CellOk(s, a, b, n, index))
    && (forall w, v :: 0 <= w < v < |s.workers| && s.workers[w].Storing? ==> s.workers[w] != s.workers[v])
    && (forall w :: 0 <= w < |s.workers| && s.workers[w].Stopped? ==> forall i :: 0 <= i < |s.board| ==> !s.board[i])
  }

  lemma InitInv(s: State, a: Matrix, b: Matrix, n: nat, threads: nat)
    requires n >= 1 && Square(a, n) && Square(b, n) && Init(s, n, threads)
    ensures Inv(s, a, b, n)
  {
  }

  lemma ClaimStepInv(s: State, a: Matrix, b: Matrix, n: nat, w: nat, num: nat)
    requires Inv(s, a, b, n) && CanStep(s, w) && s.workers[w].Asking?
    ensures Inv(Step(s, a, b, n, w, num), a, b, n)
  {
    var s' := Step(s, a, b, n, w, num);
    ProbeExhaustive(s.board, num);
    forall index: nat | ValidIndex(index, n)
      ensures CellOk(s', a, b, n, index)
    {
      assert CellOk(s, a, b, n, index);
      if s.writes[index] == 0 && !s.board[index] {
        var v :| 0 <= v < |s.workers| && s.workers[v] == Storing(index);
        assert s'.workers[v] == Storing(index);
      } else if !s'.board[index] && s.board[index] {
        assert s'.workers[w] == Storing(index);
      }
    }
  }

  lemma StoreStepInv(s: State, a: Matrix, b: Matrix, n: nat, w: nat, num: nat)
    requires Inv(s, a, b, n) && CanStep(s, w) && s.workers[w].Storing?
    ensures Inv(Step(s, a, b, n, w, num), a, b, n)
  {
    hide Cell, SetCell, Entry, Square, Cells;
    var s' := Step(s, a, b, n, w, num);
    var mine := s.workers[w].index;
    assert CellOk(s, a, b, n, mine);
    forall index: nat | ValidIndex(index, n)
      ensures CellOk(s', a, b, n, index)
    {
      assert CellOk(s, a, b, n, index);
      if index != mine {
        SetCellElsewhere(s.c, mine, index, n, Entry(a, b, mine, n));
        if s.writes[index] == 0 && !s.board[index] {
          var v :| 0 <= v < |s.workers| && s.workers[v] == Storing(index);
          assert s'.workers[v] == Storing(index);
        }
      }
    }
  }

  lemma StepInv(s: State, a: Matrix, b: Matrix, n: nat, w: nat, num: nat)
    requires Inv(s, a, b, n) && CanStep(s, w)
    ensures Inv(Step(s, a, b, n, w, num), a, b, n)
  {
    match s.workers[w]
    case Asking => ClaimStepInv(s, a, b, n, w, num);
    case Storing(_) => StoreStepInv(s, a, b, n, w, num);
  }

  /** Two workers never hold the same cell. */
  lemma ClaimsExclusive(s: State, a: Matrix, b: Matrix, n: nat, w: nat, v: nat)
    requires Inv(s, a, b, n) && w < |s.workers| && v < |s.workers|
    requires s.workers[w].Storing? && s.workers[w] == s.workers[v]
    ensures w == v && !s.board[s.workers[w].index] && s.writes[s.workers[w].index] == 0
  {
  }

  function Free(available: bool): int { if available then 1 else 0 }

  function Pending(w: Worker): int {
    match w
    case Asking => 1
    case Storing(_) => 2
    case Stopped => 0
  }

  function Measure(s: State): int { 2 * Sum(s.board, Free) + Sum(s.workers, Pending) }

  lemma StepLowersMeasure(s: State, a: Matrix, b: Matrix, n: nat, w: nat, num: nat)
    requires WellFormed(s, a, b, n) && CanStep(s, w)
    ensures Measure(Step(s, a, b, n, w, num)) == Measure(s) - 1
  {
    var s' := Step(s, a, b, n, w, num);
    assert s'.workers == s.workers[w := s'.workers[w]];
    SumUpdate(s.workers, Pending, w, s'.workers[w]);
    if s.workers[w].Asking? {
      var r := Probe(s.board, num, 0);
      if r.Some? {
        SumUpdate(s.board, Free, r.value, false);
      }
    }
  }

  /** A schedule names the worker of each step and what `rand` gives it. */
  predicate Run(s: State, a: Matrix, b: Matrix, n: nat, schedule: seq<(nat, nat)>)
    decreases |schedule|
  {
    && WellFormed(s, a, b, n)
    && (schedule == [] ||
        (CanStep(s, schedule[0].0)
         && Run(Step(s, a, b, n, schedule[0].0, schedule[0].1), a, b, n, schedule[1..])))
  }

  function After(s: State, a: Matrix, b: Matrix, n: nat, schedule: seq<(nat, nat)>): State
    requires Run(s, a, b, n, schedule)
    decreases |schedule|
  {
    if schedule == [] then s
    else After(Step(s, a, b, n, schedule[0].0, schedule[0].1), a, b, n, schedule[1..])
  }

  lemma {:induction false} RunFacts(s: State, a: Matrix, b: Matrix, n: nat, schedule: seq<(nat, nat)>)
    requires Inv(s, a, b, n) && Run(s, a, b, n, schedule)
    ensures Inv(After(s, a, b, n, schedule), a, b, n)
    ensures Measure(s) == |schedule| + Measure(After(s, a, b, n, schedule))
    ensures |After(s, a, b, n, schedule).workers| == |s.workers|
    ensures |After(s, a, b, n, schedule).writes| == |s.writes|
    decreases |schedule|
  {
    if schedule == [] {
    } else {
      StepInv(s, a, b, n, schedule[0].0, schedule[0].1);
      StepLowersMeasure(s, a, b, n, schedule[0].0, schedule[0].1);
      RunFacts(Step(s, a, b, n, schedule[0].0, schedule[0].1), a, b, n, schedule[1..]);
    }
  }

  /** When every worker has stopped, every cell was written exactly once and holds its inner product. */
  lemma StoppedMeansProduct(s: State, a: Matrix, b: Matrix, n: nat)
    requires Inv(s, a, b, n) && |s.workers| >= 1
    requires forall w :: 0 <= w < |s.workers| ==> s.workers[w].Stopped?
    ensures IsProduct(s.c, a, b, n)
    ensures forall index :: 0 <= index < |s.writes| ==> s.writes[index] == 1
  {
    assert s.workers[0].Stopped?;
    forall index | 0 <= index < |s.writes|
      ensures s.writes[index] == 1 && Cell(s.c, index, n) == Entry(a, b, index, n)
    {
      assert ValidIndex(index, n) && CellOk(s, a, b, n, index);
    }
    forall i, j | 0 <= i < n && 0 <= j < n
      ensures s.c[i][j] == Dot(a, b, i, j, n)
    {
      IndexOfCell(i, j, n);
      assert Cell(s.c, i * n + j, n) == Entry(a, b, i * n + j, n);
    }
  }

  /** For every number of workers, schedule and choice of start indices: a run that cannot go on has taken
      exactly two steps per cell and one per worker, and its matrix is the one the triple loop computes from a
      zero matrix (`SequentialMultiply`). */
  lemma ParallelEqualsSequential(s: State, a: Matrix, b: Matrix, n: nat, threads: nat, schedule: seq<(nat, nat)>,
                                 seqC: Matrix)
    requires n >= 1 && threads >= 1 && Square(a, n) && Square(b, n)
    requires Init(s, n, threads) && Run(s, a, b, n, schedule)
    requires IsProduct(seqC, a, b, n)
    ensures |schedule| <= 2 * Cells(n) + threads
    ensures var e := After(s, a, b, n, schedule);
            (forall w: nat :: !CanStep(e, w)) ==>
              && e.c == seqC
              && (forall index :: 0 <= index < |e.writes| ==> e.writes[index] == 1)
              && |schedule| == 2 * Cells(n) + threads
  {
    hide Inv, CellOk, IsProduct, Square, Step, Cells;
    InitInv(s, a, b, n, threads);
    RunFacts(s, a, b, n, schedule);
    SumBounds(s.board, Free, 1, 1);
    SumBounds(s.workers, Pending, 1, 1);
    var e := After(s, a, b, n, schedule);
    SumBounds(e.board, Free, 0, 1);
    SumBounds(e.workers, Pending, 0, 2);
    if forall w: nat :: !CanStep(e, w) {
      AtTheEnd(e, a, b, n);
      ProductUnique(e.c, seqC, a, b, n);
    }
  }

  /** With the identity matrix on one side a finished run has the other matrix. */
  lemma ParallelWithIdentity(s: State, a: Matrix, b: Matrix, n: nat, threads: nat, schedule: seq<(nat, nat)>)
    requires n >= 1 && threads >= 1 && Square(a, n) && Square(b, n)
    requires Init(s, n, threads) && Run(s, a, b, n, schedule)
    requires forall w: nat :: !CanStep(After(s, a, b, n, schedule), w)
    ensures IsIdentity(a, n) ==> After(s, a, b, n, schedule).c == b
    ensures IsIdentity(b, n) ==> After(s, a, b, n, schedule).c == a
  {
    hide Square, IsProduct, IsIdentity, Init, Run, After;
    ProductWithIdentity(b, a, b, n);
    ProductWithIdentity(a, a, b, n);
    if IsIdentity(a, n) {
      ParallelEqualsSequential(s, a, b, n, threads, schedule, b);
    }
    if IsIdentity(b, n) {
      ParallelEqualsSequential(s, a, b, n, threads, schedule, a);
    }
  }

  lemma AtTheEnd(e: State, a: Matrix, b: Matrix, n: nat)
    requires Square(a, n) && Square(b, n) && Inv(e, a, b, n) && |e.workers| >= 1 && forall w: nat :: !CanStep(e, w)
    ensures IsProduct(e.c, a, b, n) && forall index :: 0 <= index < |e.writes| ==> e.writes[index] == 1
    ensures Sum(e.workers, Pending) == 0 && Sum(e.board, Free) == 0
  {
    hide Inv, CellOk, IsProduct, Square, Step, Cells;
    forall w | 0 <= w < |e.workers|
      ensures e.workers[w].Stopped?
    {
      assert !CanStep(e, w);
    }
    SumBounds(e.workers, Pending, 0, 0);
    StoppedMeansProduct(e, a, b, n);
    AllTaken(e, a, b, n);
    SumBounds(e.board, Free, 0, 0);
  }

  lemma AllTaken(s: State, a: Matrix, b: Matrix, n: nat)
    requires Inv(s, a, b, n) && |s.workers| >= 1 && s.workers[0].Stopped?
    ensures forall i :: 0 <= i < |s.board| ==> !s.board[i]
  {
  }
}
