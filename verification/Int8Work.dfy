/**
 The two challenge-mode work types (shared/work-int8-mlp.ts and shared/work-int8-model.ts): a job
 is a chain of quantized blocks, its plan has four segments per block, and every segment has a
 kernel. `Interp` is the meaning of a plan: run the segments one by one.
 */
module Int8Work {
  import opened Wrappers
  import opened Sums
  import opened Matrices
  import opened Freivalds
  import opened Tensors
  import opened Counting

  const B_MAX: int := 64
  const DIM_MIN: int := 8
  const DIM_MAX: int := 256
  const BIAS_MAX: int := 0x10_0000
  const M_MAX: int := 0x7fff
  const S_MAX: int := 31
  const L_MAX: int := 16
  const LDH_MAX: int := 0x2_0000

  datatype Block = Block(
    w1: seq<int>, b1: seq<int>, w2: seq<int>, b2: seq<int>, m1: int, s1: int, m2: int, s2: int, lut: Option<seq<int>>)

  datatype JobKind = Mlp | Model

  /** An int8-mlp job is one block; an int8-model job is a chain of them. */
  datatype Job = Job(kind: JobKind, b: int, d: int, h: int, x: seq<int>, blocks: seq<Block>)

  predicate Within(s: seq<int>, len: int, lo: int, hi: int) {
    |s| == len && forall k :: 0 <= k < |s| ==> lo <= s[k] <= hi
  }

  predicate ValidBlock(d: int, h: int, k: Block) {
    && Within(k.w1, d * h, -128, 127) && Within(k.b1, h, -BIAS_MAX, BIAS_MAX)
    && Within(k.w2, h * d, -128, 127) && Within(k.b2, d, -BIAS_MAX, BIAS_MAX)
    && (k.lut.Some? ==> Within(k.lut.value, 256, -128, 127))
    && 1 <= k.m1 <= M_MAX && 1 <= k.m2 <= M_MAX && 1 <= k.s1 <= S_MAX && 1 <= k.s2 <= S_MAX
  }

  /** What `validateInt8Mlp` and `validateInt8Model` accept. */
  predicate ValidJob(job: Job) {
    && 1 <= job.b <= B_MAX && DIM_MIN <= job.d <= DIM_MAX && DIM_MIN <= job.h <= DIM_MAX
    && Within(job.x, job.b * job.d, -128, 127)
    && (forall l :: 0 <= l < |job.blocks| ==> ValidBlock(job.d, job.h, job.blocks[l]))
    && (if job.kind.Mlp? then |job.blocks| == 1
        else 1 <= |job.blocks| <= L_MAX && |job.blocks| * job.d * job.h <= LDH_MAX)
  }

  // ---- Arithmetic of one block ----

  function Clamp8(v: int): (r: int)
    ensures -128 <= r <= 127
  {
    if v < -128 then -128 else if v > 127 then 127 else v
  }

  function Pow2(s: int): int { if s <= 0 then 1 else 2 * Pow2(s - 1) }

  lemma {:induction false} Pow2Positive(s: int)
    ensures Pow2(s) >= 1
    decreases s
  {
    if s > 0 { Pow2Positive(s - 1); }
  }

  lemma {:induction false} Pow2Mono(s: int, t: int)
    requires s <= t
    ensures Pow2(s) <= Pow2(t)
    decreases t - s
  {
    if s < t { Pow2Mono(s, t - 1); Pow2Positive(t - 1); }
  }

  /** Round to nearest after scaling by `m / 2^s`, clamped to int8. */
  function Requant(v: int, m: int, s: int): (r: int)
    ensures -128 <= r <= 127
  {
    Pow2Positive(s);
    Clamp8((v * m + Pow2(s - 1)) / Pow2(s))
  }

  /** `r` is `v * m / 2^s` rounded to nearest, halves up, within int8; at either end of int8 one side is open. */
  ghost predicate IsRequant(v: int, m: int, s: int, r: int) {
    && -128 <= r <= 127
    && (r > -128 ==> Pow2(s) * (2 * r - 1) <= 2 * v * m)
    && (r < 127 ==> 2 * v * m < Pow2(s) * (2 * r + 1))
  }

  lemma Pow2Values()
    ensures Pow2(0) == 1 && Pow2(1) == 2 && Pow2(8) == 256 && Pow2(16) == 0x1_0000 && Pow2(31) == 0x8000_0000
  {
    assert Pow2(4) == 16 && Pow2(12) == 0x1000 && Pow2(20) == 0x10_0000 && Pow2(24) == 0x100_0000;
    assert Pow2(28) == 0x1000_0000;
  }

  /** The nearest integer, before clamping. */
  lemma FloorOf(x: int, half: int, q: int)
    requires half > 0 && q == (x + half) / (2 * half)
    ensures 2 * half * (2 * q - 1) <= 2 * x < 2 * half * (2 * q + 1)
  {
    assert 2 * half * q <= x + half < 2 * half * q + 2 * half;
  }

  lemma Ordered(p: int, q: int, r: int)
    requires p > 0 && q <= r
    ensures p * (2 * q - 1) <= p * (2 * r - 1) && p * (2 * q + 1) <= p * (2 * r + 1)
  {
  }

  /** Clamping keeps the bound on the open side. */
  lemma ClampRounds(p: int, x: int, q: int, r: int)
    requires p > 0 && p * (2 * q - 1) <= 2 * x < p * (2 * q + 1) && r == Clamp8(q)
    ensures r > -128 ==> p * (2 * r - 1) <= 2 * x
    ensures r < 127 ==> 2 * x < p * (2 * r + 1)
  {
    if r > -128 { Ordered(p, r, q); }
    if r < 127 { Ordered(p, q, r); }
  }

  lemma RequantRounds(v: int, m: int, s: int)
    requires s >= 1
    ensures IsRequant(v, m, s, Requant(v, m, s))
  {
    var half, x := Pow2(s - 1), v * m;
    Pow2Positive(s - 1);
    assert Pow2(s) == 2 * half;
    var q := (x + half) / (2 * half);
    FloorOf(x, half, q);
    ClampRounds(2 * half, x, q, Clamp8(q));
    assert 2 * v * m == 2 * x;
  }

  /** Rounding leaves one value. */
  lemma RequantUnique(v: int, m: int, s: int, r: int, r': int)
    requires IsRequant(v, m, s, r) && IsRequant(v, m, s, r')
    ensures r == r'
  {
    Pow2Positive(s);
    if r < r' { Ordered(Pow2(s), r + 1, r'); }
    if r' < r { Ordered(Pow2(s), r' + 1, r); }
  }

  /** The same in doubles: for any int32 accumulator no intermediate is rounded. */
  method RequantDbl(v: int, m: int, s: int) returns (r: int)
    requires Tensors.InRange(I32, v) && 1 <= m <= M_MAX && 1 <= s <= S_MAX
    ensures r == Requant(v, m, s) && IsRequant(v, m, s, r)
  {
    RequantFits(v, m, s);
    r := Clamp8(Dbl(Dbl(v * m) + Pow2(s - 1)) / Pow2(s));
    RequantRounds(v, m, s);
  }

  lemma RequantFits(v: int, m: int, s: int)
    requires Tensors.InRange(I32, v) && 1 <= m <= M_MAX && 1 <= s <= S_MAX
    ensures Pow2(s) > 0 && -MAX_EXACT <= v * m <= MAX_EXACT && -MAX_EXACT <= v * m + Pow2(s - 1) <= MAX_EXACT
  {
    Pow2Positive(s);
    Pow2Positive(s - 1);
    Pow2Mono(s - 1, 31);
    Pow2Values();
    MulBound(v, m, 0x8000_0000, M_MAX);
  }

  function ReluLut(): (t: seq<int>) { seq(256, i => if i - 128 > 0 then i - 128 else 0) }

  function LutOf(k: Block): seq<int> { if k.lut.Some? then k.lut.value else ReluLut() }

  function LutAt(lut: seq<int>, i: int): int { if 0 <= i < |lut| then lut[i] else 0 }

  /** Entry (i, j) of `A·B + 1·biasᵀ`. */
  function GemmEntry(a: seq<int>, b: seq<int>, bias: seq<int>, m: nat, k: nat, n: nat, i: int, j: int): int {
    Prod(k, Mat(m, k, a), Mat(k, n, b))(i, j) + Vec(bias)(j)
  }

  /** `A·B + 1·biasᵀ`, row-major. */
  function Gemm(a: seq<int>, b: seq<int>, bias: seq<int>, m: nat, k: nat, n: nat): seq<int> {
    seq(m * n, t requires 0 <= t < m * n => if n == 0 then 0 else GemmEntry(a, b, bias, m, k, n, t / n, t % n))
  }

  lemma DivModIx(i: nat, j: nat, n: nat)
    requires j < n
    ensures Ix(i, j, n) / n == i && Ix(i, j, n) % n == j
  {
    IxIsRowMajor(i, j, n);
    DivModUnique(Ix(i, j, n), n, i, j);
  }

  /** The data is `A·B + 1·biasᵀ` exactly when every entry is. */
  lemma GemmByEntries(out: seq<int>, a: seq<int>, b: seq<int>, bias: seq<int>, m: nat, k: nat, n: nat)
    requires |out| == m * n
    ensures out == Gemm(a, b, bias, m, k, n) <==>
      forall i, j :: 0 <= i < m && 0 <= j < n ==> At(Matrix(m, n, out), i, j) == GemmEntry(a, b, bias, m, k, n, i, j)
  {
    IxFacts(m, n);
    var g := Gemm(a, b, bias, m, k, n);
    forall i: nat, j: nat | i < m && j < n ensures At(Matrix(m, n, g), i, j) == GemmEntry(a, b, bias, m, k, n, i, j) {
      DivModIx(i, j, n);
    }
    if forall i, j :: 0 <= i < m && 0 <= j < n ==> At(Matrix(m, n, out), i, j) == GemmEntry(a, b, bias, m, k, n, i, j) {
      Extensional(Matrix(m, n, out), Matrix(m, n, g));
    }
  }

  // ---- Plan ----

  datatype OpBase = Xw1 | Rq1Lut | Aw2 | Rq2Res
  datatype NameBase = NX | NW1 | Nb1 | NW2 | Nb2 | Nq | Nlut
  /** `op` or `op@l`. */
  datatype Op = Op(base: OpBase, block: Option<nat>)
  /** `name` or `name_l`. */
  datatype Name = Name(base: NameBase, block: Option<nat>)
  datatype Ref = In(name: Name) | Seg(j: nat)
  datatype Kind = GemmKind | Elementwise | Opaque
  datatype Spec = Spec(idx: nat, kind: Kind, op: Op, inputs: seq<Ref>)

  /** Block suffix of the work type's names: none for int8-mlp. */
  function Tag(job: Job, l: nat): Option<nat> { if job.kind.Mlp? then None else Some(l) }

  /** Where block `l` reads its input: the job's X, or the previous block's output. */
  function XRef(l: nat): Ref { if l == 0 then In(Name(NX, None)) else Seg(4 * l - 1) }

  /** Segment `c` of block `l`. */
  function BlockSpec(job: Job, l: nat, c: nat): Spec {
    var t := Tag(job, l);
    if c == 0 then Spec(4 * l, GemmKind, Op(Xw1, t), [XRef(l), In(Name(NW1, t)), In(Name(Nb1, t))])
    else if c == 1 then Spec(4 * l + 1, Elementwise, Op(Rq1Lut, t), [Seg(4 * l)])
    else if c == 2 then Spec(4 * l + 2, GemmKind, Op(Aw2, t), [Seg(4 * l + 1), In(Name(NW2, t)), In(Name(Nb2, t))])
    else Spec(4 * l + 3, Elementwise, Op(Rq2Res, t), [Seg(4 * l + 2), XRef(l)])
  }

  function SpecAt(job: Job, i: nat): Spec { BlockSpec(job, i / 4, i % 4) }

  function Plan(job: Job): (p: seq<Spec>)
    ensures |p| == 4 * |job.blocks|
  {
    seq(4 * |job.blocks|, i requires 0 <= i < 4 * |job.blocks| => SpecAt(job, i))
  }

  /** Pushes the four segments of each block. */
  method BuildPlan(job: Job) returns (plan: seq<Spec>)
    ensures plan == Plan(job)
  {
    plan := [];
    for l := 0 to |job.blocks|
      invariant |plan| == 4 * l
      invariant forall i :: 0 <= i < 4 * l ==> plan[i] == SpecAt(job, i)
    {
      plan := plan + [BlockSpec(job, l, 0), BlockSpec(job, l, 1), BlockSpec(job, l, 2), BlockSpec(job, l, 3)];
    }
  }

  // ---- Kernels ----

  datatype Action =
    | GemmAct(m: nat, k: nat, n: nat)
    | Rq1Act(mul: int, shift: int, lut: seq<int>)
    | Rq2Act(mul: int, shift: int)

  datatype Kernel = Kernel(ins: seq<Sig>, out: Sig, act: Action)

  /** The kernel of a segment; `None` where the source throws (an op the job does not have). */
  function KernelOf(job: Job, op: Op): Option<Kernel> {
    if op.block.Some? != job.kind.Model? then None else
    var l := if op.block.Some? then op.block.value else 0;
    if l >= |job.blocks| || job.b < 0 || job.d < 0 || job.h < 0 then None else
    var k := job.blocks[l];
    match op.base
    case Xw1 => Some(Kernel([Sig(I8, [job.b, job.d]), Sig(I8, [job.d, job.h]), Sig(I32, [job.h])],
      Sig(I32, [job.b, job.h]), GemmAct(job.b, job.d, job.h)))
    case Rq1Lut => Some(Kernel([Sig(I32, [job.b, job.h])], Sig(I8, [job.b, job.h]), Rq1Act(k.m1, k.s1, LutOf(k))))
    case Aw2 => Some(Kernel([Sig(I8, [job.b, job.h]), Sig(I8, [job.h, job.d]), Sig(I32, [job.d])],
      Sig(I32, [job.b, job.d]), GemmAct(job.b, job.h, job.d)))
    case Rq2Res => Some(Kernel([Sig(I32, [job.b, job.d]), Sig(I8, [job.b, job.d])], Sig(I8, [job.b, job.d]),
      Rq2Act(k.m2, k.s2)))
  }

  /** The job's own input tensors, by name; `None` for a name the job does not have. */
  function JobInput(job: Job, name: Name): Option<Tensor> {
    if name == Name(NX, None) then Some(Tensor(I8, [job.b, job.d], job.x)) else
    if name.block.Some? != job.kind.Model? then None else
    var l := if name.block.Some? then name.block.value else 0;
    if l >= |job.blocks| then None else
    var k := job.blocks[l];
    match name.base
    case NX => None
    case NW1 => Some(Tensor(I8, [job.d, job.h], k.w1))
    case Nb1 => Some(Tensor(I32, [job.h], k.b1))
    case NW2 => Some(Tensor(I8, [job.h, job.d], k.w2))
    case Nb2 => Some(Tensor(I32, [job.d], k.b2))
    case Nq => Some(Tensor(I32, [4], [k.m1, k.s1, k.m2, k.s2]))
    case Nlut => Some(Tensor(I8, [256], LutOf(k)))
  }

  predicate ArgsOk(k: Kernel, ins: seq<Tensor>) {
    |ins| == |k.ins| && forall t :: 0 <= t < |ins| ==> ValidTensor(ins[t]) && HasSig(ins[t], k.ins[t])
  }

  function RunData(act: Action, ins: seq<Tensor>): seq<int> {
    match act
    case GemmAct(m, k, n) => if |ins| == 3 then Gemm(ins[0].data, ins[1].data, ins[2].data, m, k, n) else []
    case Rq1Act(m, s, lut) =>
      if |ins| == 1
      then seq(|ins[0].data|, i requires 0 <= i < |ins[0].data| => LutAt(lut, Requant(ins[0].data[i], m, s) + 128))
      else []
    case Rq2Act(m, s) =>
      if |ins| == 2
      then seq(|ins[0].data|,
        i requires 0 <= i < |ins[0].data| => Clamp8(Requant(ins[0].data[i], m, s) + Vec(ins[1].data)(i)))
      else []
  }

  /** What a segment computes from its input tensors. */
  function Run(k: Kernel, ins: seq<Tensor>): Tensor { Tensor(k.out.dtype, k.out.shape, RunData(k.act, ins)) }

  /** A segment's inputs: the job's own tensors, and earlier outputs. */
  function Args(job: Job, inputs: seq<Ref>, outs: seq<Tensor>): seq<Tensor> {
    seq(|inputs|, k requires 0 <= k < |inputs| => Arg(job, inputs[k], outs))
  }

  function Arg(job: Job, r: Ref, outs: seq<Tensor>): Tensor {
    match r
    case In(name) => var t := JobInput(job, name); if t.Some? then t.value else Tensor(I8, [], [])
    case Seg(j) => if j < |outs| then outs[j] else Tensor(I8, [], [])
  }

  function RunSpec(job: Job, spec: Spec, outs: seq<Tensor>): Tensor {
    var k := KernelOf(job, spec.op);
    if k.Some? then Run(k.value, Args(job, spec.inputs, outs)) else Tensor(I8, [], [])
  }

  /** What a segment makes of the outputs before it. */
  type Runner = (nat, seq<Tensor>) -> Tensor

  /** Outputs of the first `n` segments, each made by `run` from those before it. */
  function Steps(run: Runner, n: nat): (outs: seq<Tensor>)
    ensures |outs| == n
  {
    if n == 0 then [] else Steps(run, n - 1) + [run(n - 1, Steps(run, n - 1))]
  }

  lemma {:induction false} StepsPrefix(run: Runner, m: nat, n: nat)
    requires m <= n
    ensures Steps(run, m) <= Steps(run, n)
  {
    if m < n { StepsPrefix(run, m, n - 1); }
  }

  lemma StepsAt(run: Runner, n: nat, i: nat)
    requires i < n
    ensures Steps(run, n)[i] == run(i, Steps(run, n)[..i])
  {
    StepsPrefix(run, i, n);
    StepsPrefix(run, i + 1, n);
    assert Steps(run, n)[..i] == Steps(run, i);
    assert Steps(run, n)[i] == Steps(run, i + 1)[i];
  }

  /** Outputs each made from those before them are the outputs of the steps. */
  lemma {:induction false} StepsUnique(run: Runner, outs: seq<Tensor>, n: nat)
    requires n <= |outs| && forall i :: 0 <= i < n ==> outs[i] == run(i, outs[..i])
    ensures outs[..n] == Steps(run, n)
  {
    if n > 0 {
      StepsUnique(run, outs, n - 1);
      assert outs[..n] == outs[..n - 1] + [outs[n - 1]];
    }
  }

  /** The segments of a job's plan. */
  function Segments(job: Job): Runner { (i: nat, outs: seq<Tensor>) => RunSpec(job, SpecAt(job, i), outs) }

  /** The outputs of the first `n` segments of the plan. */
  function Interp(job: Job, n: nat): (outs: seq<Tensor>)
    ensures |outs| == n
  {
    Steps(Segments(job), n)
  }

  lemma InterpPrefix(job: Job, m: nat, n: nat)
    requires m <= n
    ensures Interp(job, m) <= Interp(job, n)
  {
    StepsPrefix(Segments(job), m, n);
  }

  lemma InterpAt(job: Job, n: nat, i: nat)
    requires i < n
    ensures Interp(job, n)[i] == RunSpec(job, SpecAt(job, i), Interp(job, n)[..i])
  {
    StepsAt(Segments(job), n, i);
  }

  lemma InterpNext(job: Job, n: nat)
    ensures Interp(job, 0) == []
      && Interp(job, n + 1) == Interp(job, n) + [RunSpec(job, SpecAt(job, n), Interp(job, n))]
  {
  }

  // ---- Well-formedness and bounds along the whole chain ----

  /** Bound on every accumulator: 256 products of int8 values, plus a bias. */
  const ACC_MAX: int := 0x40_0000 + 0x10_0000

  predicate SmallEntries(data: seq<int>, bound: int) { forall t :: 0 <= t < |data| ==> -bound <= data[t] <= bound }

  /** Signature of the output of segment `i`. */
  function OutSig(job: Job, i: nat): Sig {
    if i % 4 == 0 then Sig(I32, [job.b, job.h]) else if i % 4 == 1 then Sig(I8, [job.b, job.h])
    else if i % 4 == 2 then Sig(I32, [job.b, job.d]) else Sig(I8, [job.b, job.d])
  }

  /** A well-formed output of segment `i`; an accumulator is also within its bound. */
  predicate GoodOutput(job: Job, i: nat, t: Tensor) {
    && ValidTensor(t) && HasSig(t, OutSig(job, i))
    && (i % 2 == 0 ==> SmallEntries(t.data, ACC_MAX))
  }

  predicate GoodPrefix(job: Job, outs: seq<Tensor>) {
    forall i {:trigger GoodOutput(job, i, outs[i])} :: 0 <= i < |outs| ==> GoodOutput(job, i, outs[i])
  }

  /** Kernels of block `l` of a valid job. */
  function BlockKernel(job: Job, l: nat, c: nat): Kernel
    requires l < |job.blocks| && job.b > 0 && job.d > 0 && job.h > 0 && c < 4
  {
    var k := job.blocks[l];
    if c == 0 then Kernel([Sig(I8, [job.b, job.d]), Sig(I8, [job.d, job.h]), Sig(I32, [job.h])],
      Sig(I32, [job.b, job.h]), GemmAct(job.b, job.d, job.h))
    else if c == 1 then Kernel([Sig(I32, [job.b, job.h])], Sig(I8, [job.b, job.h]), Rq1Act(k.m1, k.s1, LutOf(k)))
    else if c == 2 then Kernel([Sig(I8, [job.b, job.h]), Sig(I8, [job.h, job.d]), Sig(I32, [job.d])],
      Sig(I32, [job.b, job.d]), GemmAct(job.b, job.h, job.d))
    else Kernel([Sig(I32, [job.b, job.d]), Sig(I8, [job.b, job.d])], Sig(I8, [job.b, job.d]), Rq2Act(k.m2, k.s2))
  }

  predicate DimsOk(job: Job) {
    job.b > 0 && 0 < job.d <= DIM_MAX && 0 < job.h <= DIM_MAX && (job.kind.Mlp? ==> |job.blocks| == 1)
  }

  lemma SegmentOf(job: Job, l: nat, c: nat)
    requires DimsOk(job) && l < |job.blocks| && c < 4
    ensures SpecAt(job, 4 * l + c) == BlockSpec(job, l, c)
    ensures KernelOf(job, SpecAt(job, 4 * l + c).op) == Some(BlockKernel(job, l, c))
    ensures BlockKernel(job, l, c).out == OutSig(job, 4 * l + c)
  {
    assert (4 * l + c) / 4 == l && (4 * l + c) % 4 == c;
  }

  lemma ProductOfTwo(m: int, n: int)
    ensures Product([m, n]) == m * n && Product([m]) == m
  {
    assert [m, n][1..] == [n] && [n][1..] == [] && [m][1..] == [];
    assert Product([n]) == n * 1;
  }

  lemma GemmBound(a: seq<int>, b: seq<int>, bias: seq<int>, m: nat, k: nat, n: nat)
    requires k <= DIM_MAX && Within(a, m * k, -128, 127) && Within(b, k * n, -128, 127)
      && Within(bias, n, -BIAS_MAX, BIAS_MAX)
    ensures SmallEntries(Gemm(a, b, bias, m, k, n), ACC_MAX)
    ensures forall i, j :: -ACC_MAX <= GemmEntry(a, b, bias, m, k, n, i, j) <= ACC_MAX
  {
    forall i, j ensures -ACC_MAX <= GemmEntry(a, b, bias, m, k, n, i, j) <= ACC_MAX {
      forall t ensures -16384 <= Mat(m, k, a)(i, t) * Mat(k, n, b)(t, j) <= 16384 {
        ViewBound(a, m, k, i, t);
        ViewBound(b, k, n, t, j);
        Int8Product(Mat(m, k, a)(i, t), Mat(k, n, b)(t, j));
      }
      SumBound(k, t => Mat(m, k, a)(i, t) * Mat(k, n, b)(t, j), 16384);
    }
  }

  lemma ViewBound(a: seq<int>, m: nat, k: nat, i: int, t: int)
    requires Within(a, m * k, -128, 127)
    ensures -128 <= Mat(m, k, a)(i, t) <= 127
  {
    IxFacts(m, k);
  }

  lemma Int8Product(x: int, y: int)
    requires -128 <= x <= 127 && -128 <= y <= 127
    ensures -16384 <= x * y <= 16384
  {
    if y >= 0 { MulBound(x, y, 128, 128); } else { MulBound(x, -y, 128, 128); }
  }

  lemma ReluWithin()
    ensures Within(ReluLut(), 256, -128, 127)
  {
  }

  lemma LutWithin(k: Block)
    requires k.lut.Some? ==> Within(k.lut.value, 256, -128, 127)
    ensures Within(LutOf(k), 256, -128, 127)
  {
    ReluWithin();
  }

  lemma Rq1Good(acc: Tensor, mul: int, shift: int, lut: seq<int>, m: int, n: int)
    requires ValidTensor(acc) && HasSig(acc, Sig(I32, [m, n])) && Within(lut, 256, -128, 127)
    ensures ValidTensor(Tensor(I8, [m, n], RunData(Rq1Act(mul, shift, lut), [acc])))
  {
    SameShapeValid(acc, RunData(Rq1Act(mul, shift, lut), [acc]));
  }

  lemma Rq2Good(acc: Tensor, x: Tensor, mul: int, shift: int, m: int, n: int)
    requires ValidTensor(acc) && HasSig(acc, Sig(I32, [m, n]))
    ensures ValidTensor(Tensor(I8, [m, n], RunData(Rq2Act(mul, shift), [acc, x])))
  {
    var data := RunData(Rq2Act(mul, shift), [acc, x]);
    forall i | 0 <= i < |data| ensures -128 <= data[i] <= 127 {
      assert data[i] == Clamp8(Requant(acc.data[i], mul, shift) + Vec(x.data)(i));
    }
    SameShapeValid(acc, data);
  }

  lemma SameShapeValid(t: Tensor, data: seq<int>)
    requires ValidTensor(t) && |data| == |t.data| && forall k :: 0 <= k < |data| ==> -128 <= data[k] <= 127
    ensures ValidTensor(Tensor(I8, t.shape, data))
  {
  }

  lemma GemmGood(a: Tensor, b: Tensor, bias: Tensor, m: int, k: int, n: int)
    requires m > 0 && 0 < k <= DIM_MAX && n > 0
    requires ValidTensor(a) && HasSig(a, Sig(I8, [m, k])) && Within(b.data, k * n, -128, 127)
      && Within(bias.data, n, -BIAS_MAX, BIAS_MAX)
    ensures ValidTensor(Tensor(I32, [m, n], RunData(GemmAct(m, k, n), [a, b, bias])))
    ensures SmallEntries(RunData(GemmAct(m, k, n), [a, b, bias]), ACC_MAX)
  {
    ProductOfTwo(m, k);
    ProductOfTwo(m, n);
    GemmBound(a.data, b.data, bias.data, m, k, n);
    MulPositive(m, n);
  }

  lemma MulPositive(m: int, n: int)
    requires m >= 0 && n >= 0
    ensures m * n >= 0
  {
  }

  /** The job's own tensors are well-formed and have the signatures of its kernels. */
  lemma JobInputsGood(job: Job, l: nat)
    requires ValidJob(job) && l < |job.blocks|
    ensures var k := job.blocks[l]; var t := Tag(job, l);
      && JobInput(job, Name(NX, None)) == Some(Tensor(I8, [job.b, job.d], job.x))
        && ValidTensor(Tensor(I8, [job.b, job.d], job.x))
      && JobInput(job, Name(NW1, t)) == Some(Tensor(I8, [job.d, job.h], k.w1))
        && ValidTensor(Tensor(I8, [job.d, job.h], k.w1))
      && JobInput(job, Name(Nb1, t)) == Some(Tensor(I32, [job.h], k.b1)) && ValidTensor(Tensor(I32, [job.h], k.b1))
      && JobInput(job, Name(NW2, t)) == Some(Tensor(I8, [job.h, job.d], k.w2))
        && ValidTensor(Tensor(I8, [job.h, job.d], k.w2))
      && JobInput(job, Name(Nb2, t)) == Some(Tensor(I32, [job.d], k.b2)) && ValidTensor(Tensor(I32, [job.d], k.b2))
  {
    ProductOfTwo(job.b, job.d);
    ProductOfTwo(job.d, job.h);
    ProductOfTwo(job.h, job.d);
    assert ValidBlock(job.d, job.h, job.blocks[l]);
  }

  /** Block `l`'s input tensor, read from good earlier outputs. */
  lemma XArgGood(job: Job, l: nat, outs: seq<Tensor>)
    requires ValidJob(job) && l < |job.blocks| && 4 * l <= |outs| && GoodPrefix(job, outs)
    ensures var x := Arg(job, XRef(l), outs); ValidTensor(x) && HasSig(x, Sig(I8, [job.b, job.d]))
  {
    if l == 0 {
      JobInputsGood(job, 0);
    } else {
      assert GoodOutput(job, 4 * l - 1, outs[4 * l - 1]);
      LastOfBlock(job, l, 4 * l - 1);
    }
  }

  lemma LastOfBlock(job: Job, l: nat, i: nat)
    requires l > 0 && i == 4 * l - 1
    ensures OutSig(job, i) == Sig(I8, [job.b, job.d])
  {
    assert i % 4 == 3;
  }

  lemma XArg(job: Job, l: nat, outs: seq<Tensor>) returns (x: Tensor)
    requires ValidJob(job) && l < |job.blocks| && 4 * l <= |outs| && GoodPrefix(job, outs)
    ensures x == Arg(job, XRef(l), outs) && ValidTensor(x) && HasSig(x, Sig(I8, [job.b, job.d]))
  {
    XArgGood(job, l, outs);
    x := Arg(job, XRef(l), outs);
  }

  /** The segment's inputs fit its kernel, and its output is good. */
  ghost predicate SegmentFits(job: Job, i: nat, outs: seq<Tensor>) {
    var spec := SpecAt(job, i);
    var k := KernelOf(job, spec.op);
    && k.Some? && ArgsOk(k.value, Args(job, spec.inputs, outs))
    && GoodOutput(job, i, RunSpec(job, spec, outs))
  }

  lemma SegmentAt(job: Job, i: nat, l: nat, c: nat)
    requires DimsOk(job) && l < |job.blocks| && c < 4 && i == 4 * l + c
    ensures SpecAt(job, i) == BlockSpec(job, l, c) && KernelOf(job, SpecAt(job, i).op) == Some(BlockKernel(job, l, c))
  {
    SegmentOf(job, l, c);
  }

  lemma FitsByKernel(job: Job, i: nat, l: nat, c: nat, outs: seq<Tensor>, ins: seq<Tensor>)
    requires DimsOk(job) && l < |job.blocks| && c < 4 && i == 4 * l + c
    requires Args(job, BlockSpec(job, l, c).inputs, outs) == ins && ArgsOk(BlockKernel(job, l, c), ins)
    requires GoodOutput(job, i, Run(BlockKernel(job, l, c), ins))
    ensures SegmentFits(job, i, outs)
  {
    SegmentAt(job, i, l, c);
  }

  lemma ThreeArgs(k: Kernel, t0: Tensor, t1: Tensor, t2: Tensor)
    requires |k.ins| == 3 && ValidTensor(t0) && ValidTensor(t1) && ValidTensor(t2)
    requires HasSig(t0, k.ins[0]) && HasSig(t1, k.ins[1]) && HasSig(t2, k.ins[2])
    ensures ArgsOk(k, [t0, t1, t2])
  {
  }

  lemma BlockFacts(job: Job, l: nat)
    requires ValidJob(job) && l < |job.blocks|
    ensures DimsOk(job)
    ensures var k := job.blocks[l];
      && Within(k.w1, job.d * job.h, -128, 127) && Within(k.b1, job.h, -BIAS_MAX, BIAS_MAX)
      && Within(k.w2, job.h * job.d, -128, 127) && Within(k.b2, job.d, -BIAS_MAX, BIAS_MAX)
      && Within(LutOf(k), 256, -128, 127)
  {
    assert ValidBlock(job.d, job.h, job.blocks[l]);
    LutWithin(job.blocks[l]);
  }

  /** The inputs of block `l`'s two products. */
  lemma GemmArgs(job: Job, l: nat, outs: seq<Tensor>)
    requires ValidJob(job) && l < |job.blocks|
    ensures var k := job.blocks[l];
      && Args(job, BlockSpec(job, l, 0).inputs, outs)
        == [Arg(job, XRef(l), outs), Tensor(I8, [job.d, job.h], k.w1), Tensor(I32, [job.h], k.b1)]
      && Args(job, BlockSpec(job, l, 2).inputs, outs)
        == [Arg(job, Seg(4 * l + 1), outs), Tensor(I8, [job.h, job.d], k.w2), Tensor(I32, [job.d], k.b2)]
  {
    JobInputsGood(job, l);
  }

  /** An earlier good output, with its signature spelled out. */
  lemma Earlier(job: Job, l: nat, c: nat, outs: seq<Tensor>)
    requires c < 4 && 4 * l + c < |outs| && GoodPrefix(job, outs)
    ensures var t := outs[4 * l + c];
      ValidTensor(t) && HasSig(t, OutSig(job, c)) && Arg(job, Seg(4 * l + c), outs) == t
  {
    assert GoodOutput(job, 4 * l + c, outs[4 * l + c]);
    assert (4 * l + c) % 4 == c;
  }

  lemma WeightsGood(job: Job, l: nat)
    requires ValidJob(job) && l < |job.blocks|
    ensures DimsOk(job)
    ensures var k := job.blocks[l];
      && GoodWeights(Tensor(I8, [job.d, job.h], k.w1), Tensor(I32, [job.h], k.b1), job.d, job.h)
      && GoodWeights(Tensor(I8, [job.h, job.d], k.w2), Tensor(I32, [job.d], k.b2), job.h, job.d)
  {
    JobInputsGood(job, l);
    BlockFacts(job, l);
  }

  predicate GoodWeights(w: Tensor, bias: Tensor, kk: int, n: int) {
    && ValidTensor(w) && HasSig(w, Sig(I8, [kk, n])) && Within(w.data, kk * n, -128, 127)
    && ValidTensor(bias) && HasSig(bias, Sig(I32, [n])) && Within(bias.data, n, -BIAS_MAX, BIAS_MAX)
  }

  /** Weights and bias of one of a block's two products. */
  lemma GemmInputs(job: Job, l: nat, c: nat, outs: seq<Tensor>) returns (w: Tensor, bias: Tensor)
    requires ValidJob(job) && l < |job.blocks| && (c == 0 || c == 2)
    ensures DimsOk(job)
      && Args(job, BlockSpec(job, l, c).inputs, outs)
      == [Arg(job, if c == 0 then XRef(l) else Seg(4 * l + 1), outs), w, bias]
    ensures if c == 0 then GoodWeights(w, bias, job.d, job.h) else GoodWeights(w, bias, job.h, job.d)
  {
    GemmArgs(job, l, outs);
    WeightsGood(job, l);
    var k := job.blocks[l];
    if c == 0 { w, bias := Tensor(I8, [job.d, job.h], k.w1), Tensor(I32, [job.h], k.b1); }
    else { w, bias := Tensor(I8, [job.h, job.d], k.w2), Tensor(I32, [job.d], k.b2); }
  }

  lemma Segment0Fits(job: Job, i: nat, l: nat, outs: seq<Tensor>)
    requires ValidJob(job) && l < |job.blocks| && |outs| == i == 4 * l && GoodPrefix(job, outs)
    ensures SegmentFits(job, i, outs)
  {
    var x := XArg(job, l, outs);
    var w, bias := GemmInputs(job, l, 0, outs);
    GemmFits(job, i, l, 0, outs, x, w, bias, job.d, job.h);
  }

  /** One of the two products of a block, `A` of `kk` columns and `B` of `n`. */
  lemma GemmFits(
      job: Job, i: nat, l: nat, c: nat, outs: seq<Tensor>, a: Tensor, w: Tensor, bias: Tensor, kk: int, n: int)
    requires DimsOk(job) && l < |job.blocks| && i == 4 * l + c
      && (if c == 0 then kk == job.d && n == job.h else c == 2 && kk == job.h && n == job.d)
    requires ValidTensor(a) && HasSig(a, Sig(I8, [job.b, kk]))
    requires GoodWeights(w, bias, kk, n)
    requires Args(job, BlockSpec(job, l, c).inputs, outs) == [a, w, bias]
    ensures SegmentFits(job, i, outs)
  {
    GemmGood(a, w, bias, job.b, kk, n);
    ThreeArgs(BlockKernel(job, l, c), a, w, bias);
    FitsByKernel(job, i, l, c, outs, [a, w, bias]);
  }

  lemma Segment1Fits(job: Job, i: nat, l: nat, outs: seq<Tensor>)
    requires ValidJob(job) && l < |job.blocks| && |outs| == i == 4 * l + 1 && GoodPrefix(job, outs)
    ensures SegmentFits(job, i, outs)
  {
    Earlier(job, l, 0, outs);
    BlockFacts(job, l);
    Fits1(job, i, l, outs, outs[4 * l]);
  }

  lemma Fits1(job: Job, i: nat, l: nat, outs: seq<Tensor>, acc: Tensor)
    requires i == 4 * l + 1 && DimsOk(job) && l < |job.blocks| && Within(LutOf(job.blocks[l]), 256, -128, 127)
    requires ValidTensor(acc) && HasSig(acc, Sig(I32, [job.b, job.h])) && Arg(job, Seg(4 * l), outs) == acc
    ensures SegmentFits(job, i, outs)
  {
    var k := job.blocks[l];
    Rq1Good(acc, k.m1, k.s1, LutOf(k), job.b, job.h);
    FitsByKernel(job, i, l, 1, outs, [acc]);
  }

  lemma Segment2Fits(job: Job, i: nat, l: nat, outs: seq<Tensor>)
    requires ValidJob(job) && l < |job.blocks| && |outs| == i == 4 * l + 2 && GoodPrefix(job, outs)
    ensures SegmentFits(job, i, outs)
  {
    Earlier(job, l, 1, outs);
    var w, bias := GemmInputs(job, l, 2, outs);
    GemmFits(job, i, l, 2, outs, outs[4 * l + 1], w, bias, job.h, job.d);
  }

  lemma Segment3Fits(job: Job, i: nat, l: nat, outs: seq<Tensor>)
    requires ValidJob(job) && l < |job.blocks| && |outs| == i == 4 * l + 3 && GoodPrefix(job, outs)
    ensures SegmentFits(job, i, outs)
  {
    Earlier(job, l, 2, outs);
    XArgGood(job, l, outs);
    Fits3(job, i, l, outs, outs[4 * l + 2], Arg(job, XRef(l), outs));
  }

  lemma Fits3(job: Job, i: nat, l: nat, outs: seq<Tensor>, acc: Tensor, x: Tensor)
    requires i == 4 * l + 3 && DimsOk(job) && l < |job.blocks| && ValidTensor(acc)
      && HasSig(acc, Sig(I32, [job.b, job.d]))
    requires ValidTensor(x) && HasSig(x, Sig(I8, [job.b, job.d]))
    requires Arg(job, Seg(4 * l + 2), outs) == acc && Arg(job, XRef(l), outs) == x
    ensures SegmentFits(job, i, outs)
  {
    var k := job.blocks[l];
    Rq2Good(acc, x, k.m2, k.s2, job.b, job.d);
    FitsByKernel(job, i, l, 3, outs, [acc, x]);
  }

  lemma AnySegmentFits(job: Job, i: nat, outs: seq<Tensor>)
    requires ValidJob(job) && i < 4 * |job.blocks| && |outs| == i && GoodPrefix(job, outs)
    ensures SegmentFits(job, i, outs)
  {
    var l := i / 4;
    if i % 4 == 0 { Segment0Fits(job, i, l, outs); }
    else if i % 4 == 1 { Segment1Fits(job, i, l, outs); }
    else if i % 4 == 2 { Segment2Fits(job, i, l, outs); }
    else { Segment3Fits(job, i, l, outs); }
  }

  lemma GoodSnoc(job: Job, outs: seq<Tensor>, t: Tensor)
    requires GoodPrefix(job, outs) && GoodOutput(job, |outs|, t)
    ensures GoodPrefix(job, outs + [t])
  {
  }

  /**
   Along the whole chain of a valid job every output is well-formed and has its segment's
   signature, every activation is an int8, and every accumulator is within 2^22 + 2^20.
   */
  lemma {:induction false} ChainIsGood(job: Job, n: nat)
    requires ValidJob(job) && n <= 4 * |job.blocks|
    ensures GoodPrefix(job, Interp(job, n))
  {
    if n == 0 {
      InterpNext(job, 0);
    } else {
      ChainIsGood(job, n - 1);
      NextIsGood(job, n - 1, Interp(job, n - 1), Interp(job, n));
    }
  }

  lemma NextIsGood(job: Job, i: nat, outs: seq<Tensor>, next: seq<Tensor>)
    requires ValidJob(job) && i < 4 * |job.blocks| && outs == Interp(job, i) && next == Interp(job, i + 1)
    requires GoodPrefix(job, outs)
    ensures GoodPrefix(job, next)
  {
    InterpNext(job, i);
    OutputGood(job, i, outs);
    GoodSnoc(job, outs, RunSpec(job, SpecAt(job, i), outs));
  }

  lemma OutputGood(job: Job, i: nat, outs: seq<Tensor>)
    requires ValidJob(job) && i < 4 * |job.blocks| && |outs| == i && GoodPrefix(job, outs)
    ensures GoodOutput(job, i, RunSpec(job, SpecAt(job, i), outs))
  {
    AnySegmentFits(job, i, outs);
  }

  /** Every segment of a valid job's run receives inputs that fit its kernel. */
  lemma RunFits(job: Job, i: nat)
    requires ValidJob(job) && i < 4 * |job.blocks|
    ensures SegmentFits(job, i, Interp(job, i))
  {
    ChainIsGood(job, i);
    AnySegmentFits(job, i, Interp(job, i));
  }
}
