/**
 The block product with a transcript of partial sums (pouw/src/matmul.ts). Block `i` of a
 dimension of length `nb * r` holds the indices `Ix(i, x, r) = i*r + x` for `x < r`.
 */
module BlockProduct {
  import opened Field
  import opened Matrices

  datatype Outcome = Refused | Product(c: Matrix, transcript: seq<Matrix>, intermediateCount: nat)

  predicate Square(m: Matrix, n: nat) { Valid(m) && InField(m) && m.rows == n && m.cols == n }

  /** `m` is block (i, j) of the product of the first `l` block columns of `a` with the first `l` block rows of `b`. */
  ghost predicate IsPartial(m: Matrix, a: Matrix, b: Matrix, r: nat, i: nat, j: nat, l: nat) {
    && Square(m, r)
    && forall x: nat, y: nat :: x < r && y < r ==> At(m, x, y) == Dot(a, b, Ix(i, x, r), Ix(j, y, r), Ix(l, 0, r)) % P
  }

  /** The transcript holds all `nb` partial sums of block (i, j), in order. */
  ghost predicate Recorded(t: seq<Matrix>, a: Matrix, b: Matrix, r: nat, nb: nat, i: nat, j: nat) {
    && Ix(Ix(i, j, nb), nb, nb) <= |t|
    && forall l: nat :: l < nb ==> PartialAt(t, Ix(Ix(i, j, nb), l, nb), a, b, r, i, j, l + 1)
  }

  ghost predicate PartialAt(t: seq<Matrix>, at: nat, a: Matrix, b: Matrix, r: nat, i: nat, j: nat, l: nat) {
    at < |t| && IsPartial(t[at], a, b, r, i, j, l)
  }

  /** `block` is the block of `m` in block row `i` and block column `j`. */
  ghost predicate IsBlock(block: Matrix, m: Matrix, i: nat, j: nat, r: nat) {
    && Square(block, r)
    && forall x: nat, y: nat :: x < r && y < r ==> At(block, x, y) == At(m, Ix(i, x, r), Ix(j, y, r))
  }

  lemma IxNext(i: nat, r: nat)
    ensures Ix(i + 1, 0, r) == Ix(i, r, r) == Ix(i, 0, r) + r
  {
    IxShift(i, r, r);
  }

  lemma {:induction false} IxMono(i: nat, i': nat, r: nat)
    requires i <= i'
    ensures Ix(i, 0, r) <= Ix(i', 0, r)
  {
    if i < i' { IxMono(i, i' - 1, r); IxNext(i' - 1, r); }
  }

  method GetBlock(m: Matrix, i: nat, j: nat, r: nat, nb: nat) returns (block: Matrix)
    requires i < nb && j < nb && Square(m, nb * r)
    ensures IsBlock(block, m, i, j, r)
  {
    IxIsRowMajor(i, 0, r);
    IxIsRowMajor(j, 0, r);
    IxIsRowMajor(nb, 0, r);
    IxNext(i, r);
    IxNext(j, r);
    IxMono(i + 1, nb, r);
    IxMono(j + 1, nb, r);
    block := MatGetBlock(m, i * r, j * r, r);
    forall x: nat, y: nat | x < r && y < r ensures At(block, x, y) == At(m, Ix(i, x, r), Ix(j, y, r)) {
      IxShift(i, x, r);
      IxShift(j, y, r);
    }
  }

  lemma BlockEntry(block: Matrix, m: Matrix, i: nat, j: nat, r: nat, x: nat, y: nat)
    requires IsBlock(block, m, i, j, r) && x < r && y < r
    ensures At(block, x, y) == At(m, Ix(i, x, r), Ix(j, y, r))
  {
  }

  /** Inner products whose terms agree from index `off` on. */
  lemma {:induction false} DotShift(
      a: Matrix, b: Matrix, al: Matrix, bl: Matrix, i: int, j: int, x: int, y: int, off: nat, t: nat)
    requires forall k: nat :: k < t ==> At(a, i, off + k) == At(al, x, k) && At(b, off + k, j) == At(bl, k, y)
    ensures Dot(a, b, i, j, off + t) == Dot(a, b, i, j, off) + Dot(al, bl, x, y, t)
    decreases t
  {
    if t > 0 {
      DotShift(a, b, al, bl, i, j, x, y, off, t - 1);
      assert At(a, i, off + (t - 1)) == At(al, x, t - 1);
    }
  }

  lemma BlockTerm(
    a: Matrix, b: Matrix, al: Matrix, bl: Matrix, i: nat, j: nat, l: nat, r: nat, x: nat, y: nat, u: nat, v: nat,
      w: nat, k: nat)
    requires IsBlock(al, a, i, l, r) && IsBlock(bl, b, l, j, r) && x < r && y < r && k < r
    requires u == Ix(i, x, r) && v == Ix(j, y, r) && w == Ix(l, 0, r)
    ensures At(a, u, w + k) == At(al, x, k) && At(b, w + k, v) == At(bl, k, y)
  {
    IxShift(l, k, r);
    BlockEntry(al, a, i, l, r, x, k);
    BlockEntry(bl, b, l, j, r, k, y);
  }

  /** The inner product of two blocks continues the inner product over the indices before them. */
  lemma BlockDot(
    a: Matrix, b: Matrix, al: Matrix, bl: Matrix, i: nat, j: nat, l: nat, r: nat, x: nat, y: nat, u: nat, v: nat,
      w: nat)
    requires IsBlock(al, a, i, l, r) && IsBlock(bl, b, l, j, r) && x < r && y < r
    requires u == Ix(i, x, r) && v == Ix(j, y, r) && w == Ix(l, 0, r)
    ensures Dot(a, b, u, v, w + r) == Dot(a, b, u, v, w) + Dot(al, bl, x, y, r)
  {
    forall k: nat | k < r ensures At(a, u, w + k) == At(al, x, k) && At(b, w + k, v) == At(bl, k, y) {
      BlockTerm(a, b, al, bl, i, j, l, r, x, y, u, v, w, k);
    }
    DotShift(a, b, al, bl, u, v, x, y, w, r);
  }

  /** An entry of a partial sum after one more block product. */
  lemma NextPartial(
    a: Matrix, b: Matrix, al: Matrix, bl: Matrix, i: nat, j: nat, l: nat, r: nat, x: nat, y: nat, u: nat, v: nat,
      w: nat, c: int, p: int)
    requires IsBlock(al, a, i, l, r) && IsBlock(bl, b, l, j, r) && x < r && y < r
    requires u == Ix(i, x, r) && v == Ix(j, y, r) && w == Ix(l, 0, r)
    requires c == Dot(a, b, u, v, w) % P && p == Dot(al, bl, x, y, r) % P
    ensures (c + p) % P == Dot(a, b, u, v, w + r) % P
  {
    BlockDot(a, b, al, bl, i, j, l, r, x, y, u, v, w);
    AddResidues(Dot(a, b, u, v, w), Dot(al, bl, x, y, r));
  }

  lemma AddResidues(x: int, y: int)
    ensures (x % P + y % P) % P == (x + y) % P
  {
  }

  /** One accumulation step `Cij + A_il * B_lj`. */
  method AddBlockProduct(a: Matrix, b: Matrix, c: Matrix, i: nat, j: nat, l: nat, r: nat, nb: nat) returns (c': Matrix)
    requires i < nb && j < nb && l < nb && Square(a, nb * r) && Square(b, nb * r)
    requires IsPartial(c, a, b, r, i, j, l)
    ensures IsPartial(c', a, b, r, i, j, l + 1)
  {
    var al := GetBlock(a, i, l, r, nb);
    var bl := GetBlock(b, l, j, r, nb);
    var p := MatMul(al, bl);
    c' := MatAdd(c, p);
    IxNext(l, r);
    forall x: nat, y: nat | x < r && y < r
      ensures At(c', x, y) == Dot(a, b, Ix(i, x, r), Ix(j, y, r), Ix(l + 1, 0, r)) % P
    {
      NextPartial(a, b, al, bl, i, j, l, r, x, y, Ix(i, x, r), Ix(j, y, r), Ix(l, 0, r), At(c, x, y), At(p, x, y));
    }
  }

  /** The loop over `l` for one output block: returns the block and the transcript with its partial sums appended. */
  method AccumulateBlock(
      a: Matrix, b: Matrix, i: nat, j: nat, r: nat, nb: nat, t: seq<Matrix>) returns (c: Matrix, t': seq<Matrix>)
    requires i < nb && j < nb && Square(a, nb * r) && Square(b, nb * r)
    requires |t| == Ix(Ix(i, j, nb), 0, nb)
    ensures IsPartial(c, a, b, r, i, j, nb)
    ensures t <= t' && |t'| == |t| + nb && Recorded(t', a, b, r, nb, i, j)
  {
    var zero := MatCreate(r, r);
    c := Matrix(r, r, zero[..]);
    assert IsPartial(c, a, b, r, i, j, 0) by { IxFacts(r, r); }
    t' := t;
    for l := 0 to nb
      invariant IsPartial(c, a, b, r, i, j, l)
      invariant t <= t' && |t'| == |t| + l
      invariant RecordedTo(t', a, b, r, nb, i, j, l)
    {
      c := AddBlockProduct(a, b, c, i, j, l, r, nb);
      IxShift(Ix(i, j, nb), l, nb);
      RecordOne(t', c, a, b, r, nb, i, j, l);
      t' := t' + [c];
    }
    IxShift(Ix(i, j, nb), nb, nb);
  }

  /** The first `l` partial sums of block (i, j) are in the transcript. */
  ghost predicate RecordedTo(t: seq<Matrix>, a: Matrix, b: Matrix, r: nat, nb: nat, i: nat, j: nat, l: nat) {
    forall l0: nat :: l0 < l ==> PartialAt(t, Ix(Ix(i, j, nb), l0, nb), a, b, r, i, j, l0 + 1)
  }

  lemma RecordOne(t: seq<Matrix>, c: Matrix, a: Matrix, b: Matrix, r: nat, nb: nat, i: nat, j: nat, l: nat)
    requires RecordedTo(t, a, b, r, nb, i, j, l) && IsPartial(c, a, b, r, i, j, l + 1) && |t| == Ix(Ix(i, j, nb), l, nb)
    ensures RecordedTo(t + [c], a, b, r, nb, i, j, l + 1)
  {
    forall l0: nat | l0 < l + 1 ensures PartialAt(t + [c], Ix(Ix(i, j, nb), l0, nb), a, b, r, i, j, l0 + 1) {
      if l0 < l { assert PartialAt(t, Ix(Ix(i, j, nb), l0, nb), a, b, r, i, j, l0 + 1); }
    }
  }

  lemma RecordedExtends(t: seq<Matrix>, t': seq<Matrix>, a: Matrix, b: Matrix, r: nat, nb: nat, i: nat, j: nat)
    requires t <= t' && Recorded(t, a, b, r, nb, i, j)
    ensures Recorded(t', a, b, r, nb, i, j)
  {
    forall l: nat | l < nb ensures PartialAt(t', Ix(Ix(i, j, nb), l, nb), a, b, r, i, j, l + 1) {
      assert PartialAt(t, Ix(Ix(i, j, nb), l, nb), a, b, r, i, j, l + 1);
    }
  }

  /** Entry (u, v) of the `n x n` buffer `c` is the inner product of length `t`. */
  ghost predicate EntryDone(c: seq<int>, n: nat, a: Matrix, b: Matrix, u: nat, v: nat, t: nat) {
    At(Matrix(n, n, c), u, v) == Dot(a, b, u, v, t) % P
  }

  /** Block (i, j) of the result holds the finished inner products. */
  ghost predicate BlockDone(c: seq<int>, a: Matrix, b: Matrix, r: nat, nb: nat, i: nat, j: nat) {
    forall x: nat, y: nat :: x < r && y < r ==> EntryDone(c, nb * r, a, b, Ix(i, x, r), Ix(j, y, r), Ix(nb, 0, r))
  }

  /** Writes a finished block into the result; the finished blocks before it stay. */
  method StoreBlock(a: Matrix, b: Matrix, r: nat, nb: nat, i: nat, j: nat, block: Matrix, data: array<int>)
    requires i < nb && j < nb && IsPartial(block, a, b, r, i, j, nb) && data.Length == (nb * r) * (nb * r)
    requires InField(Matrix(nb * r, nb * r, data[..]))
    modifies data
    ensures InField(Matrix(nb * r, nb * r, data[..]))
    ensures BlockDone(data[..], a, b, r, nb, i, j)
    ensures forall i0: nat, j0: nat ::
      i0 < nb && j0 < nb && (i0 != i || j0 != j) && BlockDone(old(data[..]), a, b, r, nb, i0, j0) ==>
      BlockDone(data[..], a, b, r, nb, i0, j0)
  {
    BlockRoom(i, nb, r);
    BlockRoom(j, nb, r);
    var n, ri, cj := nb * r, i * r, j * r;
    ghost var was := data[..];
    SetBlockAt(data, n, ri, cj, block, r);
    StoredBlock(a, b, r, nb, i, j, block, was, data[..], n, ri, cj);
    forall i0: nat, j0: nat | i0 < nb && j0 < nb && (i0 != i || j0 != j) && BlockDone(was, a, b, r, nb, i0, j0)
      ensures BlockDone(data[..], a, b, r, nb, i0, j0)
    {
      KeptBlock(a, b, r, nb, i, j, block, was, data[..], i0, j0, n, ri, cj);
    }
  }

  lemma BlockRoom(i: nat, nb: nat, r: nat)
    requires i < nb
    ensures i * r + r <= nb * r
  {
    BlockPlace(i, nb, r);
  }

  method SetBlockAt(data: array<int>, n: nat, ri: nat, cj: nat, block: Matrix, r: nat)
    requires Valid(block) && InField(block) && block.rows == block.cols == r && data.Length == n * n && ri + r <= n
      && cj + r <= n
    modifies data
    ensures Stored(n, r, ri, cj, block, old(data[..]), data[..])
    ensures old(InField(Matrix(n, n, data[..]))) ==> InField(Matrix(n, n, data[..]))
  {
    MatSetBlock(data, n, ri, cj, block);
  }

  /** `c` is the `n x n` buffer `was` with a block written at (ri, cj). */
  ghost predicate Stored(n: nat, r: nat, ri: nat, cj: nat, block: Matrix, was: seq<int>, c: seq<int>) {
    forall x, y :: 0 <= x < n && 0 <= y < n ==>
      At(Matrix(n, n, c), x, y) ==
        if ri <= x < ri + r && cj <= y < cj + r then At(block, x - ri, y - cj) else At(Matrix(n, n, was), x, y)
  }

  lemma BlockIndex(i: nat, nb: nat, r: nat, x: nat, n: nat, ri: nat)
    requires i < nb && x < r && n == nb * r && ri == i * r
    ensures Ix(i, x, r) == ri + x < n
  {
    BlockPlace(i, nb, r);
  }

  lemma StoredBlock(
      a: Matrix, b: Matrix, r: nat, nb: nat, i: nat, j: nat, block: Matrix, was: seq<int>, c: seq<int>, n: nat,
      ri: nat, cj: nat)
    requires n == nb * r && ri == i * r && cj == j * r && i < nb && j < nb && IsPartial(block, a, b, r, i, j, nb)
      && Stored(n, r, ri, cj, block, was, c)
    ensures BlockDone(c, a, b, r, nb, i, j)
  {
    forall x: nat, y: nat | x < r && y < r ensures EntryDone(c, n, a, b, Ix(i, x, r), Ix(j, y, r), Ix(nb, 0, r)) {
      StoredEntry(r, nb, i, j, block, was, c, n, ri, cj, x, y);
    }
  }

  lemma StoredEntry(
      r: nat, nb: nat, i: nat, j: nat, block: Matrix, was: seq<int>, c: seq<int>, n: nat, ri: nat, cj: nat, x: nat,
      y: nat)
    requires n == nb * r && ri == i * r && cj == j * r && i < nb && j < nb && Stored(n, r, ri, cj, block, was, c)
      && x < r && y < r
    ensures At(Matrix(n, n, c), Ix(i, x, r), Ix(j, y, r)) == At(block, x, y)
  {
    BlockIndex(i, nb, r, x, n, ri);
    BlockIndex(j, nb, r, y, n, cj);
  }

  /** An index of another block is outside block `i`. */
  lemma OtherIndex(i: nat, i0: nat, nb: nat, r: nat, x: nat, ri: nat)
    requires i < nb && i0 < nb && i != i0 && x < r && ri == i * r
    ensures !(ri <= Ix(i0, x, r) < ri + r)
  {
    BlockPlace(i, nb, r);
  }

  lemma KeptBlock(
      a: Matrix, b: Matrix, r: nat, nb: nat, i: nat, j: nat, block: Matrix, was: seq<int>, c: seq<int>, i0: nat,
      j0: nat, n: nat, ri: nat, cj: nat)
    requires n == nb * r && ri == i * r && cj == j * r && i < nb && j < nb && i0 < nb && j0 < nb && (i0 != i || j0 != j)
    requires Stored(n, r, ri, cj, block, was, c) && BlockDone(was, a, b, r, nb, i0, j0)
    ensures BlockDone(c, a, b, r, nb, i0, j0)
  {
    forall x: nat, y: nat | x < r && y < r ensures EntryDone(c, n, a, b, Ix(i0, x, r), Ix(j0, y, r), Ix(nb, 0, r)) {
      assert EntryDone(was, n, a, b, Ix(i0, x, r), Ix(j0, y, r), Ix(nb, 0, r));
      OtherBlock(r, nb, i, j, i0, j0, n, ri, cj, x, y, Ix(i0, x, r), Ix(j0, y, r));
      KeptEntry(block, was, c, n, r, ri, cj, Ix(i0, x, r), Ix(j0, y, r));
    }
  }

  lemma KeptEntry(block: Matrix, was: seq<int>, c: seq<int>, n: nat, r: nat, ri: nat, cj: nat, u: nat, v: nat)
    requires Stored(n, r, ri, cj, block, was, c) && u < n && v < n && !(ri <= u < ri + r && cj <= v < cj + r)
    ensures At(Matrix(n, n, c), u, v) == At(Matrix(n, n, was), u, v)
  {
  }

  lemma OtherBlock(
    r: nat, nb: nat, i: nat, j: nat, i0: nat, j0: nat, n: nat, ri: nat, cj: nat, x: nat, y: nat, u: nat, v: nat)
    requires n == nb * r && ri == i * r && cj == j * r && i < nb && j < nb && i0 < nb && j0 < nb && (i0 != i || j0 != j)
    requires x < r && y < r && u == Ix(i0, x, r) && v == Ix(j0, y, r)
    ensures u < n && v < n && !(ri <= u < ri + r && cj <= v < cj + r)
  {
    BlockIndex(i0, nb, r, x, n, i0 * r);
    BlockIndex(j0, nb, r, y, n, j0 * r);
    if i0 != i { OtherIndex(i, i0, nb, r, x, ri); } else { OtherIndex(j, j0, nb, r, y, cj); }
  }

  /** Where block `i` lies among the indices below `nb * r`. */
  lemma BlockPlace(i: nat, nb: nat, r: nat)
    requires i < nb
    ensures i * r + r <= nb * r
    ensures forall x: nat {:trigger Ix(i, x, r)} :: Ix(i, x, r) == i * r + x
    ensures forall i': nat, x: nat {:trigger Ix(i', x, r)} :: i' < nb && x < r && i' != i ==>
      !(i * r <= Ix(i', x, r) < i * r + r)
  {
    IxIsRowMajor(i, 0, r);
    IxIsRowMajor(nb, 0, r);
    IxNext(i, r);
    IxMono(i + 1, nb, r);
    forall x: nat ensures Ix(i, x, r) == i * r + x { IxShift(i, x, r); }
    forall i': nat, x: nat | i' < nb && x < r && i' != i ensures !(i * r <= Ix(i', x, r) < i * r + r) {
      if i * r <= Ix(i', x, r) < i * r + r {
        IxInjective(i', x, i, Ix(i', x, r) - i * r, r);
      }
    }
  }

  /** All blocks before (i, j) in row-major order. */
  predicate Before(i0: nat, j0: nat, i: nat, j: nat) { i0 < i || (i0 == i && j0 < j) }

  method MatMulWithTranscript(a: Matrix, b: Matrix, r: nat, n: nat) returns (out: Outcome)
    requires Square(a, n) && Square(b, n)
    ensures out.Refused? <==> r == 0 || n % r != 0
    ensures out.Product? ==> Square(out.c, n)
    ensures out.Product? ==> forall i, j :: 0 <= i < n && 0 <= j < n ==> At(out.c, i, j) == Dot(a, b, i, j, n) % P
    ensures out.Product? ==>
      var nb := n / r;
      && |out.transcript| == out.intermediateCount == nb * nb * nb
      && forall i: nat, j: nat :: i < nb && j < nb ==> Recorded(out.transcript, a, b, r, nb, i, j)
  {
    if r == 0 || n % r != 0 { return Refused; }
    var nb := n / r;
    assert nb * r == n;
    var data := MatCreate(n, n);
    var t: seq<Matrix> := [];
    var count := 0;
    for i := 0 to nb
      invariant |t| == count == Ix(Ix(i, 0, nb), 0, nb)
      invariant InField(Matrix(n, n, data[..]))
      invariant forall i0: nat, j0: nat :: i0 < nb && j0 < nb && Before(i0, j0, i, 0) ==>
        Recorded(t, a, b, r, nb, i0, j0)
      invariant forall i0: nat, j0: nat :: i0 < nb && j0 < nb && Before(i0, j0, i, 0) ==>
        BlockDone(data[..], a, b, r, nb, i0, j0)
    {
      for j := 0 to nb
        invariant |t| == count == Ix(Ix(i, j, nb), 0, nb)
        invariant InField(Matrix(n, n, data[..]))
        invariant forall i0: nat, j0: nat :: i0 < nb && j0 < nb && Before(i0, j0, i, j) ==>
          Recorded(t, a, b, r, nb, i0, j0)
        invariant forall i0: nat, j0: nat :: i0 < nb && j0 < nb && Before(i0, j0, i, j) ==>
          BlockDone(data[..], a, b, r, nb, i0, j0)
      {
        ghost var t0 := t;
        var cij;
        cij, t := AccumulateBlock(a, b, i, j, r, nb, t);
        count := count + nb;
        forall i0: nat, j0: nat | i0 < nb && j0 < nb && Before(i0, j0, i, j) ensures Recorded(t, a, b, r, nb, i0, j0) {
          RecordedExtends(t0, t, a, b, r, nb, i0, j0);
        }
        StoreBlock(a, b, r, nb, i, j, cij, data);
        IxShift(i, j, nb);
        IxShift(i, j + 1, nb);
        IxNext(Ix(i, j, nb), nb);
      }
      IxNext(i, nb);
    }
    IxIsRowMajor(nb, 0, nb);
    IxIsRowMajor(nb * nb, 0, nb);
    out := Product(Matrix(n, n, data[..]), t, count);
    AllBlocksDone(out.c, a, b, r, nb);
  }

  lemma AllBlocksDone(c: Matrix, a: Matrix, b: Matrix, r: nat, nb: nat)
    requires Square(c, nb * r)
    requires forall i: nat, j: nat :: i < nb && j < nb ==> BlockDone(c.data, a, b, r, nb, i, j)
    ensures forall i, j :: 0 <= i < nb * r && 0 <= j < nb * r ==> At(c, i, j) == Dot(a, b, i, j, nb * r) % P
  {
    IxIsRowMajor(nb, 0, r);
    forall i, j | 0 <= i < nb * r && 0 <= j < nb * r ensures At(c, i, j) == Dot(a, b, i, j, nb * r) % P {
      var bi, x := IxOnto(i, nb, r);
      var bj, y := IxOnto(j, nb, r);
      assert BlockDone(c.data, a, b, r, nb, bi, bj);
    }
  }
}
