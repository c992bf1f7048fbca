/**
 Matrices over the field, stored flat in row-major order (pouw/src/matrix.ts). Each operation
 fills a buffer in nested loops; its contract gives every entry of the result.
 */
module Matrices {
  import opened Sums
  import opened Field

  datatype Matrix = Matrix(rows: nat, cols: nat, data: seq<int>)

  /**
   Position of entry (i, j) in row-major order. Defined row by row so that the proofs below stay
   linear; `IxIsRowMajor` gives the closed form the code computes.
   */
  function Ix(i: nat, j: nat, cols: nat): nat {
    if i == 0 then j else cols + Ix(i - 1, j, cols)
  }

  lemma {:induction false} IxIsRowMajor(i: nat, j: nat, cols: nat)
    ensures Ix(i, j, cols) == i * cols + j
  {
    if i > 0 {
      IxIsRowMajor(i - 1, j, cols);
      assert i * cols == (i - 1) * cols + cols;
    }
  }

  lemma {:induction false} IxShift(i: nat, j: nat, cols: nat)
    ensures Ix(i, j, cols) == Ix(i, 0, cols) + j
  {
    if i > 0 { IxShift(i - 1, j, cols); }
  }

  lemma {:induction false} IxBound(i: nat, j: nat, rows: nat, cols: nat)
    requires i < rows && j < cols
    ensures Ix(i, j, cols) < Ix(rows, 0, cols)
  {
    if i == 0 {
      assert Ix(rows, 0, cols) == cols + Ix(rows - 1, 0, cols);
    } else {
      IxBound(i - 1, j, rows - 1, cols);
    }
  }

  lemma {:induction false} IxInjective(i: nat, j: nat, i': nat, j': nat, cols: nat)
    requires j < cols && j' < cols && Ix(i, j, cols) == Ix(i', j', cols)
    ensures i == i' && j == j'
  {
    if i > 0 && i' > 0 { IxInjective(i - 1, j, i' - 1, j', cols); }
  }

  /** Every flat position is the position of exactly one entry. */
  lemma {:induction false} IxOnto(t: nat, rows: nat, cols: nat) returns (i: nat, j: nat)
    requires t < Ix(rows, 0, cols)
    ensures i < rows && j < cols && Ix(i, j, cols) == t
  {
    if t < cols {
      i, j := 0, t;
    } else {
      i, j := IxOnto(t - cols, rows - 1, cols);
      i := i + 1;
    }
  }

  /** The three facts about positions that a loop filling a `rows x cols` buffer needs. */
  lemma IxFacts(rows: nat, cols: nat)
    ensures Ix(rows, 0, cols) == rows * cols
    ensures forall i: nat, j: nat {:trigger Ix(i, j, cols)} :: i < rows && j < cols ==> Ix(i, j, cols) < rows * cols
    ensures forall i: nat, j: nat, i': nat, j': nat {:trigger Ix(i, j, cols), Ix(i', j', cols)} ::
              j < cols && j' < cols && Ix(i, j, cols) == Ix(i', j', cols) ==> i == i' && j == j'
  {
    IxIsRowMajor(rows, 0, cols);
    forall i: nat, j: nat | i < rows && j < cols ensures Ix(i, j, cols) < rows * cols { IxBound(i, j, rows, cols); }
    forall i: nat, j: nat, i': nat, j': nat | j < cols && j' < cols && Ix(i, j, cols) == Ix(i', j', cols)
      ensures i == i' && j == j'
    {
      IxInjective(i, j, i', j', cols);
    }
  }

  predicate Valid(m: Matrix) { |m.data| == m.rows * m.cols }

  /** Every entry is a canonical residue. */
  predicate InField(m: Matrix) { forall t :: 0 <= t < |m.data| ==> 0 <= m.data[t] < P }

  /** Entry (i, j); 0 outside the matrix. */
  function At(m: Matrix, i: int, j: int): int {
    if Valid(m) && 0 <= i < m.rows && 0 <= j < m.cols then
      IxFacts(m.rows, m.cols);
      m.data[Ix(i, j, m.cols)]
    else 0
  }

  function View(m: Matrix): Mx { (i, j) => At(m, i, j) }

  /** A matrix is determined by its dimensions and entries. */
  lemma Extensional(m: Matrix, m': Matrix)
    requires Valid(m) && Valid(m') && m.rows == m'.rows && m.cols == m'.cols
    requires forall i, j :: 0 <= i < m.rows && 0 <= j < m.cols ==> At(m, i, j) == At(m', i, j)
    ensures m == m'
  {
    IxFacts(m.rows, m.cols);
    forall t | 0 <= t < |m.data| ensures m.data[t] == m'.data[t] {
      var i, j := IxOnto(t, m.rows, m.cols);
      assert At(m, i, j) == At(m', i, j);
    }
  }

  lemma InFieldAt(m: Matrix, i: int, j: int)
    requires InField(m)
    ensures 0 <= At(m, i, j) < P
  {
    IxFacts(m.rows, m.cols);
  }

  /** Inner product of row `i` of `a` and column `j` of `b` over the first `k` indices, exactly. */
  function Dot(a: Matrix, b: Matrix, i: int, j: int, k: nat): int {
    if k == 0 then 0 else Dot(a, b, i, j, k - 1) + At(a, i, k - 1) * At(b, k - 1, j)
  }

  lemma {:induction false} DotIsSum(a: Matrix, b: Matrix, i: int, j: int, k: nat)
    ensures Dot(a, b, i, j, k) == Prod(k, View(a), View(b))(i, j)
  {
    if k > 0 {
      DotIsSum(a, b, i, j, k - 1);
      SumEq(k - 1, t => View(a)(i, t) * View(b)(t, j), t => View(a)(i, t) * View(b)(t, j));
    }
  }

  method MatCreate(rows: nat, cols: nat) returns (data: array<int>)
    ensures fresh(data) && data.Length == rows * cols
    ensures forall t :: 0 <= t < data.Length ==> data[t] == 0
  {
    data := new int[rows * cols](_ => 0);
  }

  method MatAdd(a: Matrix, b: Matrix) returns (c: Matrix)
    requires Valid(a) && Valid(b) && a.rows == b.rows && a.cols == b.cols
    ensures Valid(c) && InField(c) && c.rows == a.rows && c.cols == a.cols
    ensures forall i, j :: 0 <= i < a.rows && 0 <= j < a.cols ==> At(c, i, j) == (At(a, i, j) + At(b, i, j)) % P
  {
    var data := MatCreate(a.rows, a.cols);
    for t := 0 to |a.data|
      invariant forall u :: 0 <= u < t ==> data[u] == (a.data[u] + b.data[u]) % P
    {
      data[t] := ModP(a.data[t] + b.data[t]);
    }
    c := Matrix(a.rows, a.cols, data[..]);
    IxFacts(a.rows, a.cols);
  }

  method MatSub(a: Matrix, b: Matrix) returns (c: Matrix)
    requires Valid(a) && Valid(b) && a.rows == b.rows && a.cols == b.cols
    ensures Valid(c) && InField(c) && c.rows == a.rows && c.cols == a.cols
    ensures forall i, j :: 0 <= i < a.rows && 0 <= j < a.cols ==> At(c, i, j) == (At(a, i, j) - At(b, i, j)) % P
  {
    var data := MatCreate(a.rows, a.cols);
    for t := 0 to |a.data|
      invariant forall u :: 0 <= u < t ==> data[u] == (a.data[u] - b.data[u]) % P
    {
      data[t] := ModP(a.data[t] - b.data[t]);
    }
    c := Matrix(a.rows, a.cols, data[..]);
    IxFacts(a.rows, a.cols);
  }

  /** Row `i` of the buffer holds the inner products over the first `k` indices, reduced. */
  ghost predicate RowDone(data: seq<int>, a: Matrix, b: Matrix, i: nat, k: nat)
    requires |data| == a.rows * b.cols && i < a.rows
  {
    IxFacts(a.rows, b.cols);
    forall j: nat :: j < b.cols ==> data[Ix(i, j, b.cols)] == Dot(a, b, i, j, k) % P
  }

  /** `(cur + x*y) % p`, with the two shortcuts for zero factors of the inner loops. */
  function AddMul(cur: int, x: int, y: int): int {
    if x == 0 || y == 0 then cur else Rem(cur + x * y)
  }

  lemma AddMulMod(acc: int, x: nat, y: nat)
    ensures AddMul(acc % P, x, y) == (acc + x * y) % P
  {
    if x == 0 || y == 0 {
      assert x * y == 0;
    } else {
      assert acc % P + x * y >= 0;
    }
  }

  /** `data'` is `data` with `a[i, k] * b[k, _]` added to row `i`. */
  ghost predicate RowAdded(data: seq<int>, data': seq<int>, a: Matrix, b: Matrix, i: nat, k: nat)
    requires |data| == |data'| == a.rows * b.cols
  {
    IxFacts(a.rows, b.cols);
    forall i0: nat, j: nat {:trigger Ix(i0, j, b.cols)} :: i0 < a.rows && j < b.cols ==>
      data'[Ix(i0, j, b.cols)] ==
        if i0 == i then AddMul(data[Ix(i0, j, b.cols)], At(a, i, k), At(b, k, j)) else data[Ix(i0, j, b.cols)]
  }

  /** The innermost loop of `MatMul`, in place on the result's buffer. */
  method MulRow(a: Matrix, b: Matrix, i: nat, k: nat, data: array<int>)
    requires Valid(a) && Valid(b) && a.cols == b.rows
    requires i < a.rows && k < a.cols && data.Length == a.rows * b.cols
    modifies data
    ensures RowAdded(old(data[..]), data[..], a, b, i, k)
  {
    IxFacts(a.rows, b.cols);
    IxFacts(a.rows, a.cols);
    IxFacts(b.rows, b.cols);
    IxIsRowMajor(i, k, a.cols);
    var aik := a.data[i * a.cols + k];
    for j := 0 to b.cols
      invariant forall i0: nat, j0: nat {:trigger Ix(i0, j0, b.cols)} :: i0 < a.rows && j0 < b.cols ==>
        data[Ix(i0, j0, b.cols)] ==
          if i0 == i && j0 < j then AddMul(old(data[Ix(i0, j0, b.cols)]), aik, At(b, k, j0))
            else old(data[Ix(i0, j0, b.cols)])
    {
      IxIsRowMajor(k, j, b.cols);
      IxIsRowMajor(i, j, b.cols);
      var idx := i * b.cols + j;
      data[idx] := AddMul(data[idx], aik, b.data[k * b.cols + j]);
    }
  }

  lemma RowAddedStep(data: seq<int>, data': seq<int>, a: Matrix, b: Matrix, i: nat, k: nat)
    requires InField(a) && InField(b) && i < a.rows && |data| == |data'| == a.rows * b.cols
    requires RowAdded(data, data', a, b, i, k) && RowDone(data, a, b, i, k)
    ensures RowDone(data', a, b, i, k + 1)
    ensures forall i0: nat, k0: nat :: i0 < a.rows && i0 != i && RowDone(data, a, b, i0, k0) ==>
      RowDone(data', a, b, i0, k0)
  {
    IxFacts(a.rows, b.cols);
    forall j: nat | j < b.cols ensures data'[Ix(i, j, b.cols)] == Dot(a, b, i, j, k + 1) % P {
      InFieldAt(a, i, k);
      InFieldAt(b, k, j);
      AddMulMod(Dot(a, b, i, j, k), At(a, i, k), At(b, k, j));
    }
  }

  method MatMul(a: Matrix, b: Matrix) returns (c: Matrix)
    requires Valid(a) && Valid(b) && InField(a) && InField(b) && a.cols == b.rows
    ensures Valid(c) && InField(c) && c.rows == a.rows && c.cols == b.cols
    ensures forall i, j :: 0 <= i < a.rows && 0 <= j < b.cols ==> At(c, i, j) == Dot(a, b, i, j, a.cols) % P
  {
    var data := MatCreate(a.rows, b.cols);
    assert forall i0: nat :: i0 < a.rows ==> RowDone(data[..], a, b, i0, 0) by { IxFacts(a.rows, b.cols); }
    for i := 0 to a.rows
      invariant forall i0: nat :: i0 < i ==> RowDone(data[..], a, b, i0, a.cols)
      invariant forall i0: nat :: i <= i0 < a.rows ==> RowDone(data[..], a, b, i0, 0)
    {
      for k := 0 to a.cols
        invariant forall i0: nat :: i0 < i ==> RowDone(data[..], a, b, i0, a.cols)
        invariant forall i0: nat :: i < i0 < a.rows ==> RowDone(data[..], a, b, i0, 0)
        invariant RowDone(data[..], a, b, i, k)
      {
        ghost var before := data[..];
        MulRow(a, b, i, k, data);
        RowAddedStep(before, data[..], a, b, i, k);
      }
    }
    c := Matrix(a.rows, b.cols, data[..]);
    RowsDone(c, a, b);
  }

  lemma RowsDone(c: Matrix, a: Matrix, b: Matrix)
    requires Valid(c) && c.rows == a.rows && c.cols == b.cols
    requires forall i: nat :: i < a.rows ==> RowDone(c.data, a, b, i, a.cols)
    ensures InField(c)
    ensures forall i, j :: 0 <= i < a.rows && 0 <= j < b.cols ==> At(c, i, j) == Dot(a, b, i, j, a.cols) % P
  {
    IxFacts(a.rows, b.cols);
    forall i, j | 0 <= i < a.rows && 0 <= j < b.cols
      ensures At(c, i, j) == Dot(a, b, i, j, a.cols) % P
    {
      assert RowDone(c.data, a, b, i, a.cols);
    }
    forall t | 0 <= t < |c.data| ensures 0 <= c.data[t] < P {
      var i, j := IxOnto(t, a.rows, b.cols);
      assert At(c, i, j) == c.data[t];
    }
  }

  /** The `r x r` block of `m` whose top left corner is (rowStart, colStart). */
  method MatGetBlock(m: Matrix, rowStart: nat, colStart: nat, r: nat) returns (block: Matrix)
    requires Valid(m) && InField(m) && rowStart + r <= m.rows && colStart + r <= m.cols
    ensures Valid(block) && InField(block) && block.rows == r && block.cols == r
    ensures forall i, j :: 0 <= i < r && 0 <= j < r ==> At(block, i, j) == At(m, rowStart + i, colStart + j)
  {
    var data := MatCreate(r, r);
    IxFacts(r, r);
    IxFacts(m.rows, m.cols);
    for i := 0 to r
      invariant forall t :: 0 <= t < data.Length ==> 0 <= data[t] < P
      invariant forall i0: nat, j0: nat {:trigger Ix(i0, j0, r)} :: i0 < i && j0 < r ==>
        data[Ix(i0, j0, r)] == At(m, rowStart + i0, colStart + j0)
    {
      for j := 0 to r
        invariant forall t :: 0 <= t < data.Length ==> 0 <= data[t] < P
        invariant forall i0: nat, j0: nat {:trigger Ix(i0, j0, r)} ::
          i0 < r && j0 < r && (i0 < i || (i0 == i && j0 < j)) ==>
          data[Ix(i0, j0, r)] == At(m, rowStart + i0, colStart + j0)
      {
        IxIsRowMajor(i, j, r);
        IxIsRowMajor(rowStart + i, colStart + j, m.cols);
        data[i * r + j] := m.data[(rowStart + i) * m.cols + (colStart + j)];
      }
    }
    block := Matrix(r, r, data[..]);
  }

  function Cell(data: seq<int>, k: int): int { if 0 <= k < |data| then data[k] else 0 }

  /** Whether the loops have written entry (i0, j0), at row `i` and column `j` of the block. */
  predicate Reached(i0: int, j0: int, rowStart: int, colStart: int, cols: int, i: int, j: int) {
    colStart <= j0 < colStart + cols && rowStart <= i0
      && (i0 < rowStart + i || (i0 == rowStart + i && j0 < colStart + j))
  }

  /** The buffer when the loops are at row `i` and column `j` of the block. */
  ghost predicate BlockWritten(
      data: seq<int>, was: seq<int>, n: nat, rowStart: nat, colStart: nat, block: Matrix, i: nat, j: nat)
  {
    && |data| == |was| == n * n
    && forall i0: nat, j0: nat {:trigger Ix(i0, j0, n)} :: i0 < n && j0 < n ==>
      Cell(data, Ix(i0, j0, n)) ==
        if Reached(i0, j0, rowStart, colStart, block.cols, i, j) then At(block, i0 - rowStart, j0 - colStart)
          else Cell(was, Ix(i0, j0, n))
  }

  lemma EntryWritten(
      data: seq<int>, was: seq<int>, n: nat, rowStart: nat, colStart: nat, block: Matrix, i: nat, j: nat, k: nat,
      x: int)
    requires rowStart + block.rows <= n && colStart + block.cols <= n && i < block.rows && j < block.cols
    requires BlockWritten(data, was, n, rowStart, colStart, block, i, j) && k == Ix(rowStart + i, colStart + j, n)
      && k < |data| && x == At(block, i, j)
    ensures BlockWritten(data[k := x], was, n, rowStart, colStart, block, i, j + 1)
  {
    IxFacts(n, n);
  }

  lemma RowWritten(data: seq<int>, was: seq<int>, n: nat, rowStart: nat, colStart: nat, block: Matrix, i: nat)
    requires BlockWritten(data, was, n, rowStart, colStart, block, i, block.cols)
    ensures BlockWritten(data, was, n, rowStart, colStart, block, i + 1, 0)
  {
    forall i0: nat, j0: nat {:trigger Ix(i0, j0, n)} | i0 < n && j0 < n
      ensures Cell(data, Ix(i0, j0, n)) == if Reached(i0, j0, rowStart, colStart, block.cols, i + 1, 0)
        then At(block, i0 - rowStart, j0 - colStart) else Cell(was, Ix(i0, j0, n))
    {
      assert Reached(i0, j0, rowStart, colStart, block.cols, i + 1, 0)
        == Reached(i0, j0, rowStart, colStart, block.cols, i, block.cols);
    }
  }

  /** Writes row `i` of the block. */
  method SetRow(data: array<int>, n: nat, rowStart: nat, colStart: nat, block: Matrix, i: nat, ghost was: seq<int>)
    requires Valid(block) && InField(block) && i < block.rows && rowStart + block.rows <= n
      && colStart + block.cols <= n
    requires BlockWritten(data[..], was, n, rowStart, colStart, block, i, 0) && KeepsField(n, was, data[..])
    modifies data
    ensures BlockWritten(data[..], was, n, rowStart, colStart, block, i + 1, 0) && KeepsField(n, was, data[..])
  {
    for j := 0 to block.cols
      invariant BlockWritten(data[..], was, n, rowStart, colStart, block, i, j)
      invariant KeepsField(n, was, data[..])
    {
      var k := (rowStart + i) * n + (colStart + j);
      EntryPlace(n, rowStart + i, colStart + j, block, i, j, k);
      var x := block.data[i * block.cols + j];
      ghost var before := data[..];
      EntryWritten(before, was, n, rowStart, colStart, block, i, j, k, x);
      data[k] := x;
      assert data[..] == before[k := x];
    }
    RowWritten(data[..], was, n, rowStart, colStart, block, i);
  }

  /** Overwrites, in place, the block of an `n x n` buffer whose top left corner is (rowStart, colStart). */
  method MatSetBlock(data: array<int>, n: nat, rowStart: nat, colStart: nat, block: Matrix)
    requires Valid(block) && InField(block) && data.Length == n * n
    requires rowStart + block.rows <= n && colStart + block.cols <= n
    modifies data
    ensures forall i, j :: 0 <= i < n && 0 <= j < n ==>
      At(Matrix(n, n, data[..]), i, j) ==
        if rowStart <= i < rowStart + block.rows && colStart <= j < colStart + block.cols
        then At(block, i - rowStart, j - colStart)
        else At(Matrix(n, n, old(data[..])), i, j)
    ensures old(InField(Matrix(n, n, data[..]))) ==> InField(Matrix(n, n, data[..]))
  {
    ghost var was := data[..];
    for i := 0 to block.rows
      invariant BlockWritten(data[..], was, n, rowStart, colStart, block, i, 0)
      invariant KeepsField(n, was, data[..])
    {
      SetRow(data, n, rowStart, colStart, block, i, was);
    }
    AllWritten(data[..], was, n, rowStart, colStart, block);
  }

  ghost predicate KeepsField(n: nat, was: seq<int>, data: seq<int>) {
    InField(Matrix(n, n, was)) ==> InField(Matrix(n, n, data))
  }

  lemma AllWritten(data: seq<int>, was: seq<int>, n: nat, rowStart: nat, colStart: nat, block: Matrix)
    requires BlockWritten(data, was, n, rowStart, colStart, block, block.rows, 0)
    ensures forall i, j :: 0 <= i < n && 0 <= j < n ==>
      At(Matrix(n, n, data), i, j) ==
        if rowStart <= i < rowStart + block.rows && colStart <= j < colStart + block.cols
        then At(block, i - rowStart, j - colStart)
        else At(Matrix(n, n, was), i, j)
  {
    IxFacts(n, n);
  }

  lemma EntryPlace(n: nat, row: nat, col: nat, block: Matrix, i: nat, j: nat, k: nat)
    requires Valid(block) && InField(block) && row < n && col < n && i < block.rows && j < block.cols
      && k == row * n + col
    ensures k == Ix(row, col, n) < n * n && i * block.cols + j < |block.data|
    ensures block.data[i * block.cols + j] == At(block, i, j) && 0 <= At(block, i, j) < P
  {
    IxFacts(n, n);
    IxFacts(block.rows, block.cols);
    IxIsRowMajor(row, col, n);
    IxIsRowMajor(i, j, block.cols);
  }
}
