/**
 What an int8 job computes (shared/work-int8-mlp.ts:96-143), entry by entry and without reference to kernels or plans:
 integer products with a bias, rounding to nearest with halves up, the table or a cut at zero, and the residual.
 */
module Semantics {
  import opened Sums
  import opened Wrappers
  import opened Matrices
  import opened Freivalds
  import opened Tensors
  import opened Int8Work

  // ---- The four segments of a block ----

  /** `out` is the row-major `m x n` product of `x` and `w` plus `bias`, entry by entry. */
  ghost predicate IsProduct(out: seq<int>, x: seq<int>, w: seq<int>, bias: seq<int>, m: nat, k: nat, n: nat) {
    |out| == m * n && forall i: nat, j: nat :: i < m && j < n ==> IsEntry(out, x, w, bias, k, n, i, j)
  }

  ghost predicate IsEntry(out: seq<int>, x: seq<int>, w: seq<int>, bias: seq<int>, k: nat, n: nat, i: nat, j: nat) {
    Cell(out, i * n + j) == Sum(k, t => Cell(x, i * k + t) * Cell(w, t * n + j)) + Cell(bias, j)
  }

  /** Each entry is the table's at its requantized accumulator, or without a table that value cut at zero. */
  ghost predicate IsActivation(out: seq<int>, acc: seq<int>, m: int, s: int, lut: Option<seq<int>>) {
    |out| == |acc| && forall t :: 0 <= t < |acc| ==> Activated(acc[t], m, s, lut, out[t])
  }

  ghost predicate Activated(v: int, m: int, s: int, lut: Option<seq<int>>, y: int) {
    exists r :: IsRequant(v, m, s, r) && IsLooked(lut, r, y)
  }

  predicate IsLooked(lut: Option<seq<int>>, r: int, y: int) {
    match lut
    case None => y == if r < 0 then 0 else r
    case Some(table) => 0 <= r + 128 < |table| && y == table[r + 128]
  }

  /** Each entry is its requantized accumulator plus the block's input, clamped to int8. */
  ghost predicate IsResidual(out: seq<int>, acc: seq<int>, x: seq<int>, m: int, s: int) {
    && |out| == |acc| == |x|
    && forall t :: 0 <= t < |acc| ==> Added(acc[t], m, s, x[t], out[t])
  }

  ghost predicate Added(v: int, m: int, s: int, x: int, y: int) {
    exists r :: IsRequant(v, m, s, r) && IsClamped(r + x, y)
  }

  predicate IsClamped(v: int, y: int) {
    (v < -128 && y == -128) || (-128 <= v <= 127 && y == v) || (127 < v && y == 127)
  }

  /** The outputs of block `l` are accumulators, activations, accumulators, and the block's result. */
  ghost predicate BlockShaped(job: Job, l: nat, outs: seq<Tensor>)
    requires 4 * l + 4 <= |outs|
  {
    var acc1, act, acc2, y := outs[4 * l], outs[4 * l + 1], outs[4 * l + 2], outs[4 * l + 3];
    && acc1.dtype == acc2.dtype == I32 && act.dtype == y.dtype == I8
    && acc1.shape == act.shape == [job.b, job.h] && acc2.shape == y.shape == [job.b, job.d]
  }

  /** They are made from the block's input, which is the job's or the result of the block before. */
  ghost predicate BlockComputes(job: Job, l: nat, outs: seq<Tensor>)
    requires l < |job.blocks| && 4 * l + 4 <= |outs| && job.b >= 0 && job.d >= 0 && job.h >= 0
  {
    var k, x := job.blocks[l], if l == 0 then job.x else outs[4 * l - 1].data;
    && IsProduct(outs[4 * l].data, x, k.w1, k.b1, job.b, job.d, job.h)
    && IsActivation(outs[4 * l + 1].data, outs[4 * l].data, k.m1, k.s1, k.lut)
    && IsProduct(outs[4 * l + 2].data, outs[4 * l + 1].data, k.w2, k.b2, job.b, job.h, job.d)
    && IsResidual(outs[4 * l + 3].data, outs[4 * l + 2].data, x, k.m2, k.s2)
  }

  /** The outputs of all segments of a job. */
  ghost predicate Computes(job: Job, outs: seq<Tensor>)
    requires job.b >= 0 && job.d >= 0 && job.h >= 0
  {
    |outs| == 4 * |job.blocks|
    && forall l: nat :: l < |job.blocks| ==> BlockShaped(job, l, outs) && BlockComputes(job, l, outs)
  }

  // ---- The plan's meaning is that ----

  lemma MatIsCell(m: nat, n: nat, a: seq<int>, i: nat, j: nat)
    requires |a| == m * n && i < m && j < n
    ensures Mat(m, n, a)(i, j) == Cell(a, i * n + j)
  {
    IxFacts(m, n);
    IxIsRowMajor(i, j, n);
  }

  lemma ProductEntry(x: seq<int>, w: seq<int>, bias: seq<int>, m: nat, k: nat, n: nat, i: nat, j: nat)
    requires |x| == m * k && |w| == k * n && i < m && j < n
    ensures IsEntry(Gemm(x, w, bias, m, k, n), x, w, bias, k, n, i, j)
  {
    var g := Gemm(x, w, bias, m, k, n);
    GemmByEntries(g, x, w, bias, m, k, n);
    assert At(Matrix(m, n, g), i, j) == GemmEntry(x, w, bias, m, k, n, i, j);
    MatIsCell(m, n, g, i, j);
    forall t | 0 <= t < k
      ensures Mat(m, k, x)(i, t) * Mat(k, n, w)(t, j) == Cell(x, i * k + t) * Cell(w, t * n + j)
    {
      MatIsCell(m, k, x, i, t);
      MatIsCell(k, n, w, t, j);
    }
    SumEq(k, t => Mat(m, k, x)(i, t) * Mat(k, n, w)(t, j), t => Cell(x, i * k + t) * Cell(w, t * n + j));
  }

  lemma GemmIsProduct(x: seq<int>, w: seq<int>, bias: seq<int>, m: nat, k: nat, n: nat)
    requires |x| == m * k && |w| == k * n
    ensures IsProduct(Gemm(x, w, bias, m, k, n), x, w, bias, m, k, n)
  {
    forall i: nat, j: nat | i < m && j < n ensures IsEntry(Gemm(x, w, bias, m, k, n), x, w, bias, k, n, i, j) {
      ProductEntry(x, w, bias, m, k, n, i, j);
    }
  }

  lemma LookedUp(k: Block, r: int)
    requires -128 <= r <= 127 && (k.lut.Some? ==> |k.lut.value| == 256)
    ensures IsLooked(k.lut, r, LutAt(LutOf(k), r + 128))
  {
  }

  lemma Rq1IsActivation(acc: Tensor, k: Block)
    requires k.s1 >= 1 && (k.lut.Some? ==> |k.lut.value| == 256)
    ensures IsActivation(RunData(Rq1Act(k.m1, k.s1, LutOf(k)), [acc]), acc.data, k.m1, k.s1, k.lut)
  {
    var ins := [acc];
    var out := RunData(Rq1Act(k.m1, k.s1, LutOf(k)), ins);
    assert |out| == |ins[0].data| && ins[0] == acc;
    forall t | 0 <= t < |acc.data| ensures Activated(acc.data[t], k.m1, k.s1, k.lut, out[t]) {
      var r := Requant(acc.data[t], k.m1, k.s1);
      RequantRounds(acc.data[t], k.m1, k.s1);
      LookedUp(k, r);
      assert out[t] == LutAt(LutOf(k), Requant(ins[0].data[t], k.m1, k.s1) + 128);
    }
  }

  lemma Rq2IsResidual(acc: Tensor, x: Tensor, k: Block)
    requires k.s2 >= 1 && |acc.data| == |x.data|
    ensures IsResidual(RunData(Rq2Act(k.m2, k.s2), [acc, x]), acc.data, x.data, k.m2, k.s2)
  {
    var ins := [acc, x];
    var out := RunData(Rq2Act(k.m2, k.s2), ins);
    assert |out| == |ins[0].data| && ins[0] == acc && ins[1] == x;
    forall t | 0 <= t < |acc.data| ensures Added(acc.data[t], k.m2, k.s2, x.data[t], out[t]) {
      RequantRounds(acc.data[t], k.m2, k.s2);
      assert out[t] == Clamp8(Requant(ins[0].data[t], k.m2, k.s2) + Vec(ins[1].data)(t));
      assert IsClamped(Requant(acc.data[t], k.m2, k.s2) + x.data[t], out[t]);
    }
  }

  /** Segment `c` of block `l` of the plan's outputs, as its kernel makes it of the ones before. */
  lemma SegmentMade(job: Job, n: nat, l: nat, c: nat, args: seq<Tensor>)
    requires ValidJob(job) && l < |job.blocks| && c < 4 && 4 * l + c < n && DimsOk(job)
    requires args == Args(job, BlockSpec(job, l, c).inputs, Interp(job, n)[..4 * l + c])
    ensures Interp(job, n)[4 * l + c] == Run(BlockKernel(job, l, c), args)
  {
    InterpAt(job, n, 4 * l + c);
    SegmentOf(job, l, c);
  }

  /** The block's input among the outputs. */
  lemma XOfBlock(job: Job, l: nat, outs: seq<Tensor>, n: nat)
    requires ValidJob(job) && l < |job.blocks| && 4 * l <= n <= |outs|
    ensures Arg(job, XRef(l), outs[..n]).data == if l == 0 then job.x else outs[4 * l - 1].data
  {
    JobInputsGood(job, 0);
  }

  /** The accumulators of a product segment. */
  lemma ProductMade(job: Job, n: nat, l: nat, c: nat, x: Tensor, w: Tensor, bias: Tensor, k: nat, cols: nat)
    requires ValidJob(job) && l < |job.blocks| && (c == 0 || c == 2) && 4 * l + c < n && DimsOk(job)
    requires BlockKernel(job, l, c).act == GemmAct(job.b, k, cols) && |x.data| == job.b * k && |w.data| == k * cols
    requires Args(job, BlockSpec(job, l, c).inputs, Interp(job, n)[..4 * l + c]) == [x, w, bias]
    ensures IsProduct(Interp(job, n)[4 * l + c].data, x.data, w.data, bias.data, job.b, k, cols)
  {
    SegmentMade(job, n, l, c, [x, w, bias]);
    GemmIsProduct(x.data, w.data, bias.data, job.b, k, cols);
  }

  /** `t` has the signature of segment `c` of a block, and as much data. */
  predicate IsShaped(job: Job, c: nat, t: Tensor) {
    && t.dtype == (if c % 2 == 0 then I32 else I8) && t.shape == [job.b, if c < 2 then job.h else job.d]
    && |t.data| == job.b * if c < 2 then job.h else job.d
  }

  lemma ShapesMade(job: Job, n: nat, l: nat, c: nat)
    requires ValidJob(job) && l < |job.blocks| && c < 4 && 4 * l + c < n && n <= 4 * |job.blocks|
    ensures IsShaped(job, c, Interp(job, n)[4 * l + c])
  {
    ChainIsGood(job, n);
    ShapeOf(job, Interp(job, n), 4 * l + c, l, c);
  }

  lemma ShapeOf(job: Job, outs: seq<Tensor>, i: nat, l: nat, c: nat)
    requires GoodPrefix(job, outs) && i == 4 * l + c < |outs| && c < 4
    ensures IsShaped(job, c, outs[i])
  {
    assert GoodOutput(job, i, outs[i]);
    SigOf(job, i, l, c, outs[i]);
  }

  lemma SigOf(job: Job, i: nat, l: nat, c: nat, t: Tensor)
    requires i == 4 * l + c && c < 4 && ValidTensor(t) && HasSig(t, OutSig(job, i))
    ensures IsShaped(job, c, t)
  {
    assert i % 4 == c;
    ProductOfTwo(job.b, job.h);
    ProductOfTwo(job.b, job.d);
  }

  lemma XSize(job: Job, n: nat, l: nat)
    requires ValidJob(job) && l < |job.blocks| && 4 * l <= n <= 4 * |job.blocks| && DimsOk(job)
    ensures var x := Arg(job, XRef(l), Interp(job, n)[..4 * l]);
      x.data == (if l == 0 then job.x else Interp(job, n)[4 * l - 1].data) && |x.data| == job.b * job.d
  {
    XOfBlock(job, l, Interp(job, n), 4 * l);
    if l > 0 { ShapesMade(job, n, l - 1, 3); }
  }

  lemma Products(job: Job, n: nat, l: nat)
    requires ValidJob(job) && l < |job.blocks| && 4 * l + 4 <= n <= 4 * |job.blocks| && DimsOk(job)
    ensures var outs, k := Interp(job, n), job.blocks[l];
      && IsProduct(outs[4 * l].data, if l == 0 then job.x else outs[4 * l - 1].data, k.w1, k.b1, job.b, job.d, job.h)
      && IsProduct(outs[4 * l + 2].data, outs[4 * l + 1].data, k.w2, k.b2, job.b, job.h, job.d)
  {
    var outs, k := Interp(job, n), job.blocks[l];
    BlockFacts(job, l);
    XSize(job, n, l);
    ShapesMade(job, n, l, 1);
    GemmArgs(job, l, outs[..4 * l]);
    GemmArgs(job, l, outs[..4 * l + 2]);
    var w1, b1 := Tensor(I8, [job.d, job.h], k.w1), Tensor(I32, [job.h], k.b1);
    ProductMade(job, n, l, 0, Arg(job, XRef(l), outs[..4 * l]), w1, b1, job.d, job.h);
    var w2, b2 := Tensor(I8, [job.h, job.d], k.w2), Tensor(I32, [job.d], k.b2);
    ProductMade(job, n, l, 2, outs[4 * l + 1], w2, b2, job.h, job.d);
  }

  lemma Elementwises(job: Job, n: nat, l: nat)
    requires ValidJob(job) && l < |job.blocks| && 4 * l + 4 <= n <= 4 * |job.blocks| && DimsOk(job)
    ensures var outs, k := Interp(job, n), job.blocks[l];
      && IsActivation(outs[4 * l + 1].data, outs[4 * l].data, k.m1, k.s1, k.lut)
      && IsResidual(outs[4 * l + 3].data, outs[4 * l + 2].data, if l == 0 then job.x
        else outs[4 * l - 1].data, k.m2, k.s2)
  {
    var outs, k := Interp(job, n), job.blocks[l];
    assert ValidBlock(job.d, job.h, k);
    XOfBlock(job, l, outs, 4 * l + 3);
    XSize(job, n, l);
    ShapesMade(job, n, l, 2);
    var x := Arg(job, XRef(l), outs[..4 * l + 3]);
    assert Args(job, BlockSpec(job, l, 1).inputs, outs[..4 * l + 1]) == [outs[4 * l]];
    SegmentMade(job, n, l, 1, [outs[4 * l]]);
    Rq1IsActivation(outs[4 * l], k);
    assert Args(job, BlockSpec(job, l, 3).inputs, outs[..4 * l + 3]) == [outs[4 * l + 2], x];
    SegmentMade(job, n, l, 3, [outs[4 * l + 2], x]);
    Rq2IsResidual(outs[4 * l + 2], x, k);
  }

  /** For every valid job, the plan interpreted segment by segment computes exactly that. */
  lemma InterpComputes(job: Job)
    requires ValidJob(job)
    ensures Computes(job, Interp(job, 4 * |job.blocks|))
  {
    var n := 4 * |job.blocks|;
    forall l: nat | l < |job.blocks|
      ensures BlockShaped(job, l, Interp(job, n)) && BlockComputes(job, l, Interp(job, n))
    {
      BlockFacts(job, l);
      BlockShapes(job, n, l);
      BlockValues(job, n, l);
    }
  }

  lemma BlockShapes(job: Job, n: nat, l: nat)
    requires ValidJob(job) && l < |job.blocks| && 4 * l + 4 <= n <= 4 * |job.blocks|
    ensures BlockShaped(job, l, Interp(job, n))
  {
    ShapesMade(job, n, l, 0);
    ShapesMade(job, n, l, 1);
    ShapesMade(job, n, l, 2);
    ShapesMade(job, n, l, 3);
  }

  lemma BlockValues(job: Job, n: nat, l: nat)
    requires ValidJob(job) && l < |job.blocks| && 4 * l + 4 <= n <= 4 * |job.blocks| && DimsOk(job)
    ensures BlockComputes(job, l, Interp(job, n))
  {
    Products(job, n, l);
    Elementwises(job, n, l);
  }
}
