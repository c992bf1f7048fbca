/**
 The honest node (node-agent/src/work.ts and the executors of shared/work-int8-mlp.ts and
 shared/work-int8-model.ts): it runs the plan, commits, and opens what it is asked for. Every
 check it meets passes, whatever sigma, challenge and random vectors are drawn.
 */
module HonestWork {
  import opened Sums
  import opened Matrices
  import opened Freivalds
  import opened Text
  import opened Wrappers
  import opened Tensors
  import opened Int8Work
  import opened CommitOpen
  import opened Semantics

  // ---- Execution ----

  /** `C` starts as the bias and `a[i, t] * B[t, _]` is added for each `t`, in place. */
  method GemmBias(a: seq<int>, b: seq<int>, bias: seq<int>, m: nat, k: nat, n: nat) returns (out: seq<int>)
    requires |a| == m * k && |b| == k * n && |bias| == n
    ensures out == Gemm(a, b, bias, m, k, n)
  {
    var c := MatCreate(m, n);
    FillBias(c, bias, m, n);
    for i := 0 to m
      invariant Progress(c[..], a, b, bias, m, k, n, i, 0)
    {
      for t := 0 to k
        invariant Progress(c[..], a, b, bias, m, k, n, i, t)
      {
        ghost var before := c[..];
        AddRow(c, a, b, m, k, n, i, t);
        ProgressStep(before, c[..], a, b, bias, m, k, n, i, t);
      }
      NextRow(c[..], a, b, bias, m, k, n, i);
    }
    out := c[..];
    RowsAreGemm(out, a, b, bias, m, k, n);
  }

  /** Inner indices added to row `i0` when the loops are at row `i` and inner index `t`. */
  function Upto(i0: nat, i: nat, t: nat, k: nat): nat { if i0 < i then k else if i0 == i then t else 0 }

  /** State of the buffer at row `i`, inner index `t`. */
  ghost predicate Progress(
      c: seq<int>, a: seq<int>, b: seq<int>, bias: seq<int>, m: nat, k: nat, n: nat, i: nat, t: nat)
  {
    |c| == m * n && forall i0: nat, u: nat :: i0 < m && u == Upto(i0, i, t, k) ==> RowIs(c, a, b, bias, m, k, n, i0, u)
  }

  lemma ProgressStep(
      c: seq<int>, c': seq<int>, a: seq<int>, b: seq<int>, bias: seq<int>, m: nat, k: nat, n: nat, i: nat, t: nat)
    requires i < m && Progress(c, a, b, bias, m, k, n, i, t) && AddedRow(c, c', a, b, m, k, n, i, t)
    ensures Progress(c', a, b, bias, m, k, n, i, t + 1)
  {
    forall i0: nat, u: nat | i0 < m && u == Upto(i0, i, t + 1, k) ensures RowIs(c', a, b, bias, m, k, n, i0, u) {
      RowStep(c, c', a, b, bias, m, k, n, i, t, i0, Upto(i0, i, t, k));
    }
  }

  lemma NextRow(c: seq<int>, a: seq<int>, b: seq<int>, bias: seq<int>, m: nat, k: nat, n: nat, i: nat)
    requires Progress(c, a, b, bias, m, k, n, i, k)
    ensures Progress(c, a, b, bias, m, k, n, i + 1, 0)
  {
    forall i0: nat, u: nat | i0 < m && u == Upto(i0, i + 1, 0, k) ensures RowIs(c, a, b, bias, m, k, n, i0, u) {
      assert u == Upto(i0, i, k, k);
    }
  }

  /** Row `i` holds the bias plus the products over the first `t` inner indices. */
  ghost predicate RowIs(c: seq<int>, a: seq<int>, b: seq<int>, bias: seq<int>, m: nat, k: nat, n: nat, i: nat, t: nat) {
    |c| == m * n && forall j: nat :: j < n ==>
      At(Matrix(m, n, c), i, j) == Prod(t, Mat(m, k, a), Mat(k, n, b))(i, j) + Vec(bias)(j)
  }

  method FillBias(c: array<int>, bias: seq<int>, m: nat, n: nat)
    requires c.Length == m * n && |bias| == n
    modifies c
    ensures forall a, b, k :: Progress(c[..], a, b, bias, m, k, n, 0, 0)
  {
    IxFacts(m, n);
    for i := 0 to m
      invariant forall i0: nat, j0: nat {:trigger Ix(i0, j0, n)} :: i0 < i && j0 < n ==> c[Ix(i0, j0, n)] == bias[j0]
    {
      for j := 0 to n
        invariant forall i0: nat, j0: nat {:trigger Ix(i0, j0, n)} ::
          i0 < m && j0 < n && (i0 < i || (i0 == i && j0 < j)) ==> c[Ix(i0, j0, n)] == bias[j0]
      {
        IxIsRowMajor(i, j, n);
        c[i * n + j] := bias[j];
      }
    }
  }

  /** `c'` is `c` with `a[i, t] * b[t, _]` added to row `i`. */
  ghost predicate AddedRow(c: seq<int>, c': seq<int>, a: seq<int>, b: seq<int>, m: nat, k: nat, n: nat, i: nat, t: nat)
  {
    && |c| == |c'| == m * n
    && forall i0: nat, j: nat :: i0 < m && j < n ==>
      At(Matrix(m, n, c'), i0, j) == At(Matrix(m, n, c), i0, j) + if i0 == i
        then Mat(m, k, a)(i, t) * Mat(k, n, b)(t, j) else 0
  }

  method AddRow(c: array<int>, a: seq<int>, b: seq<int>, m: nat, k: nat, n: nat, i: nat, t: nat)
    requires c.Length == m * n && |a| == m * k && |b| == k * n && i < m && t < k
    modifies c
    ensures AddedRow(old(c[..]), c[..], a, b, m, k, n, i, t)
  {
    IxFacts(m, n);
    EntryAt(a, m, k, i, t);
    var ait := a[i * k + t];
    if ait == 0 { return; }
    for j := 0 to n
      invariant forall i0: nat, j0: nat {:trigger Ix(i0, j0, n)} :: i0 < m && j0 < n ==>
        c[Ix(i0, j0, n)] == old(c[Ix(i0, j0, n)]) + if i0 == i && j0 < j then ait * Mat(k, n, b)(t, j0) else 0
    {
      EntryAt(b, k, n, t, j);
      IxIsRowMajor(i, j, n);
      c[i * n + j] := c[i * n + j] + ait * b[t * n + j];
    }
  }

  lemma RowStep(
      c: seq<int>, c': seq<int>, a: seq<int>, b: seq<int>, bias: seq<int>, m: nat, k: nat, n: nat, i: nat, t: nat,
      i0: nat, u: nat)
    requires i0 < m && AddedRow(c, c', a, b, m, k, n, i, t) && RowIs(c, a, b, bias, m, k, n, i0, u)
      && (i0 == i ==> u == t)
    ensures RowIs(c', a, b, bias, m, k, n, i0, if i0 == i then t + 1 else u)
  {
    forall j: nat | j < n
      ensures At(Matrix(m, n, c'), i0, j)
        == Prod(if i0 == i then t + 1 else u, Mat(m, k, a), Mat(k, n, b))(i0, j) + Vec(bias)(j)
    {
      if i0 == i { SumStep(t, Mat(m, k, a), Mat(k, n, b), i, j); }
    }
  }

  lemma SumStep(t: nat, a: Mx, b: Mx, i: int, j: int)
    ensures Prod(t + 1, a, b)(i, j) == Prod(t, a, b)(i, j) + a(i, t) * b(t, j)
  {
    SumEq(t, k => a(i, k) * b(k, j), k => a(i, k) * b(k, j));
  }

  lemma RowsAreGemm(out: seq<int>, a: seq<int>, b: seq<int>, bias: seq<int>, m: nat, k: nat, n: nat)
    requires Progress(out, a, b, bias, m, k, n, m, 0)
    ensures out == Gemm(a, b, bias, m, k, n)
  {
    forall i, j | 0 <= i < m && 0 <= j < n ensures At(Matrix(m, n, out), i, j) == GemmEntry(a, b, bias, m, k, n, i, j) {
      assert RowIs(out, a, b, bias, m, k, n, i, k);
    }
    GemmByEntries(out, a, b, bias, m, k, n);
  }

  predicate Requantizes(act: Action, ins: seq<Tensor>) {
    && (act.Rq1Act? || act.Rq2Act?) && 1 <= act.mul <= M_MAX && 1 <= act.shift <= S_MAX
    && |ins| == (if act.Rq1Act? then 1 else 2) && forall k :: 0 <= k < |ins[0].data| ==> InRange(I32, ins[0].data[k])
  }

  /** The requantizing loop of an elementwise kernel. */
  method RequantAll(act: Action, ins: seq<Tensor>) returns (out: seq<int>)
    requires Requantizes(act, ins)
    ensures out == RunData(act, ins)
  {
    out := [];
    ghost var want := RunData(act, ins);
    for i := 0 to |ins[0].data|
      invariant |out| == i
      invariant forall k :: 0 <= k < i ==> k < |want| && out[k] == want[k]
    {
      var v := RequantOne(act, ins, i, want);
      out := out + [v];
    }
  }

  method RequantOne(act: Action, ins: seq<Tensor>, i: nat, ghost want: seq<int>) returns (v: int)
    requires Requantizes(act, ins) && i < |ins[0].data| && want == RunData(act, ins)
    ensures i < |want| && v == want[i]
  {
    var r := RequantDbl(ins[0].data[i], act.mul, act.shift);
    v := if act.Rq1Act? then LutAt(act.lut, r + 128) else Clamp8(r + Vec(ins[1].data)(i));
  }

  /** Scales the executor's doubles can carry. */
  predicate ScalesOk(k: Kernel) { k.act.GemmAct? || (1 <= k.act.mul <= M_MAX && 1 <= k.act.shift <= S_MAX) }

  predicate Runnable(k: Kernel, ins: seq<Tensor>) {
    && ScalesOk(k) && ArgsOk(k, ins)
    && (k.act.GemmAct? ==>
      |ins| == 3 && |ins[0].data| == k.act.m * k.act.k && |ins[1].data| == k.act.k * k.act.n
      && |ins[2].data| == k.act.n)
    && (k.act.Rq1Act? ==> |ins| == 1 && ins[0].dtype == I32) && (k.act.Rq2Act? ==> |ins| == 2 && ins[0].dtype == I32)
  }

  method RunSegment(k: Kernel, ins: seq<Tensor>) returns (t: Tensor)
    requires Runnable(k, ins)
    ensures t == Run(k, ins)
  {
    var data;
    if k.act.GemmAct? {
      data := GemmBias(ins[0].data, ins[1].data, ins[2].data, k.act.m, k.act.k, k.act.n);
    } else {
      data := RequantAll(k.act, ins);
    }
    t := Tensor(k.out.dtype, k.out.shape, data);
  }

  lemma FitsIsRunnable(job: Job, i: nat, outs: seq<Tensor>)
    requires ValidJob(job) && i < 4 * |job.blocks| && SegmentFits(job, i, outs)
    ensures Runnable(KernelOf(job, SpecAt(job, i).op).value, Args(job, SpecAt(job, i).inputs, outs))
  {
    var l, c := i / 4, i % 4;
    SegmentOf(job, l, c);
    assert ValidBlock(job.d, job.h, job.blocks[l]);
    RunnableKernel(job, l, c, Args(job, SpecAt(job, i).inputs, outs));
  }

  lemma RunnableKernel(job: Job, l: nat, c: nat, ins: seq<Tensor>)
    requires DimsOk(job) && l < |job.blocks| && c < 4 && ArgsOk(BlockKernel(job, l, c), ins)
      && ValidBlock(job.d, job.h, job.blocks[l])
    ensures Runnable(BlockKernel(job, l, c), ins)
  {
    if c % 2 == 0 {
      ProductOfTwo(job.b, job.d);
      ProductOfTwo(job.d, job.h);
      ProductOfTwo(job.b, job.h);
      ProductOfTwo(job.h, job.d);
    }
  }

  const MLP_SEGMENTS: nat := 4

  /** Runs the segments of an int8-mlp job, each on the job's inputs and the outputs before it. */
  method ExecuteMlp(job: Job) returns (outputs: seq<Tensor>)
    requires ValidJob(job) && job.kind.Mlp?
    ensures outputs == Interp(job, MLP_SEGMENTS)
  {
    outputs := [];
    for i := 0 to MLP_SEGMENTS
      invariant outputs == Interp(job, i)
    {
      RunFits(job, i);
      FitsIsRunnable(job, i, outputs);
      var spec := SpecAt(job, i);
      var t := RunSegment(KernelOf(job, spec.op).value, Args(job, spec.inputs, outputs));
      InterpNext(job, i);
      outputs := outputs + [t];
    }
  }

  /** Block `l` as an int8-mlp job of its own, fed with `x`. */
  function BlockJob(job: Job, l: nat, x: seq<int>): Job
    requires l < |job.blocks|
  {
    Job(Mlp, job.b, job.d, job.h, x, [job.blocks[l]])
  }

  /** Input of block `l`: the job's X, or the data of the last output so far. */
  function BlockX(job: Job, outs: seq<Tensor>): seq<int> { if outs == [] then job.x else outs[|outs| - 1].data }

  lemma BlockJobValid(job: Job, l: nat, outs: seq<Tensor>)
    requires ValidJob(job) && l < |job.blocks| && |outs| == 4 * l && GoodPrefix(job, outs)
    ensures ValidJob(BlockJob(job, l, BlockX(job, outs)))
    ensures l > 0 ==> outs[4 * l - 1] == Tensor(I8, [job.b, job.d], BlockX(job, outs))
  {
    assert ValidBlock(job.d, job.h, job.blocks[l]);
    if l > 0 {
      var y := outs[4 * l - 1];
      assert GoodOutput(job, 4 * l - 1, y);
      assert (4 * l - 1) % 4 == 3;
      Int8Within(y, job.b, job.d);
    }
  }

  /** A segment reads the same tensors in the model as in its block run on its own. */
  lemma SameArgs(job: Job, l: nat, c: nat, before: seq<Tensor>, local: seq<Tensor>, x: seq<int>)
    requires l < |job.blocks| && c < 4 && |before| == 4 * l && |local| == c && (job.kind.Mlp? ==> l == 0)
    requires if l == 0 then x == job.x else before[4 * l - 1] == Tensor(I8, [job.b, job.d], x)
    ensures Args(job, BlockSpec(job, l, c).inputs, before + local)
      == Args(BlockJob(job, l, x), BlockSpec(BlockJob(job, l, x), 0, c).inputs, local)
  {
    var r, r' := BlockSpec(job, l, c).inputs, BlockSpec(BlockJob(job, l, x), 0, c).inputs;
    assert |r| == |r'|;
    forall k | 0 <= k < |r| ensures Arg(job, r[k], before + local) == Arg(BlockJob(job, l, x), r'[k], local) {
    }
  }

  lemma SameSegment(job: Job, l: nat, c: nat, n: nat, before: seq<Tensor>, local: seq<Tensor>, x: seq<int>)
    requires DimsOk(job) && l < |job.blocks| && c < 4 && |before| == 4 * l && |local| == c && n == 4 * l + c
    requires if l == 0 then x == job.x else before[4 * l - 1] == Tensor(I8, [job.b, job.d], x)
    ensures RunSpec(job, SpecAt(job, n), before + local)
      == RunSpec(BlockJob(job, l, x), SpecAt(BlockJob(job, l, x), c), local)
  {
    var one := BlockJob(job, l, x);
    var args := Args(job, BlockSpec(job, l, c).inputs, before + local);
    SameArgs(job, l, c, before, local, x);
    SegmentRuns(job, l, c, n, before + local, args);
    SegmentRuns(one, 0, c, c, local, args);
    SameKernel(job, l, c, x);
  }

  lemma SegmentRuns(job: Job, l: nat, c: nat, i: nat, outs: seq<Tensor>, args: seq<Tensor>)
    requires DimsOk(job) && l < |job.blocks| && c < 4 && i == 4 * l + c
      && args == Args(job, BlockSpec(job, l, c).inputs, outs)
    ensures RunSpec(job, SpecAt(job, i), outs) == Run(BlockKernel(job, l, c), args)
  {
    SegmentOf(job, l, c);
  }

  lemma SameKernel(job: Job, l: nat, c: nat, x: seq<int>)
    requires DimsOk(job) && l < |job.blocks| && c < 4
    ensures BlockKernel(job, l, c) == BlockKernel(BlockJob(job, l, x), 0, c)
  {
  }

  /** Every output is what its segment makes of the outputs before it. */
  ghost predicate IsRun(job: Job, outs: seq<Tensor>) {
    forall i {:trigger ContinuesRun(job, outs, i)} :: 0 <= i < |outs| ==> ContinuesRun(job, outs, i)
  }

  lemma InterpIsRun(job: Job, n: nat)
    ensures IsRun(job, Interp(job, n))
  {
    forall i | 0 <= i < n ensures ContinuesRun(job, Interp(job, n), i) { InterpAt(job, n, i); }
  }

  lemma RunIsGood(job: Job, outs: seq<Tensor>)
    requires ValidJob(job) && |outs| <= 4 * |job.blocks| && IsRun(job, outs)
    ensures outs == Interp(job, |outs|) && GoodPrefix(job, outs)
  {
    RunIsInterp(job, outs, |outs|);
    assert outs[..|outs|] == outs;
    ChainIsGood(job, |outs|);
  }

  lemma OldOutput(job: Job, before: seq<Tensor>, block: seq<Tensor>, i: nat)
    requires i < |before| && ContinuesRun(job, before, i)
    ensures ContinuesRun(job, before + block, i)
  {
    assert (before + block)[..i] == before[..i];
  }

  lemma NewOutput(job: Job, one: Job, l: nat, c: nat, i: nat, before: seq<Tensor>, block: seq<Tensor>, x: seq<int>)
    requires DimsOk(job) && l < |job.blocks| && c < 4 && |before| == 4 * l && |block| == 4 && i == 4 * l + c
      && one == BlockJob(job, l, x)
    requires if l == 0 then x == job.x else before[4 * l - 1] == Tensor(I8, [job.b, job.d], x)
    requires ContinuesRun(one, block, c)
    ensures ContinuesRun(job, before + block, i)
  {
    SameSegment(job, l, c, i, before, block[..c], x);
    assert (before + block)[..i] == before + block[..c];
  }

  /** A run of block `l` on its own, on the result of the block before, continues the run of the model. */
  lemma BlocksCompose(job: Job, l: nat, before: seq<Tensor>, block: seq<Tensor>, x: seq<int>)
    requires DimsOk(job) && l < |job.blocks| && |before| == 4 * l && |block| == 4
    requires if l == 0 then x == job.x else before[4 * l - 1] == Tensor(I8, [job.b, job.d], x)
    requires IsRun(job, before) && IsRun(BlockJob(job, l, x), block)
    ensures IsRun(job, before + block)
  {
    forall i: nat | i < |before + block| ensures ContinuesRun(job, before + block, i) {
      if i < 4 * l {
        OldOutput(job, before, block, i);
      } else {
        assert ContinuesRun(BlockJob(job, l, x), block, i - 4 * l);
        NewOutput(job, BlockJob(job, l, x), l, i - 4 * l, i, before, block, x);
      }
    }
  }

  /** The blocks in order, each block's result being the next one's X. */
  method Execute(job: Job) returns (outputs: seq<Tensor>, result: Tensor)
    requires ValidJob(job)
    ensures outputs == Interp(job, 4 * |job.blocks|) && result == HonestResult(job)
    ensures Computes(job, outputs) && result == outputs[|outputs| - 1]
  {
    InterpComputes(job);
    outputs := [];
    var x := job.x;
    for l := 0 to |job.blocks|
      invariant |outputs| == 4 * l && IsRun(job, outputs) && x == BlockX(job, outputs)
    {
      var block := ExecuteBlock(job, l, outputs, x);
      outputs := outputs + block;
      x := block[3].data;
    }
    RunIsGood(job, outputs);
    result := outputs[|outputs| - 1];
  }

  /** One block: the int8-mlp executor on the block's own weights. */
  method ExecuteBlock(job: Job, l: nat, outputs: seq<Tensor>, x: seq<int>) returns (block: seq<Tensor>)
    requires ValidJob(job) && l < |job.blocks| && |outputs| == 4 * l && IsRun(job, outputs) && x == BlockX(job, outputs)
    ensures |block| == 4 && IsRun(job, outputs + block)
  {
    RunIsGood(job, outputs);
    BlockJobValid(job, l, outputs);
    BlockFacts(job, l);
    block := ExecuteMlp(BlockJob(job, l, x));
    InterpIsRun(BlockJob(job, l, x), 4);
    BlocksCompose(job, l, outputs, block, x);
  }

  /** `challengedSegments`: the drawn indices, each once and ascending, or a refusal (the source throws). */
  method ChallengedSegments(raw: seq<int>, planLength: nat) returns (ok: bool, segments: seq<int>)
    ensures ok <==> 0 < |raw| <= planLength && forall k :: 0 <= k < |raw| ==> 0 <= raw[k] < planLength
    ensures ok ==> (forall x :: x in segments <==> x in raw) && forall i, j :: 0 <= i < j < |segments| ==>
      segments[i] < segments[j]
  {
    segments := [];
    if |raw| == 0 || |raw| > planLength { return false, []; }
    for k := 0 to |raw|
      invariant forall t :: 0 <= t < k ==> 0 <= raw[t] < planLength
      invariant forall x :: x in segments <==> x in raw[..k]
      invariant forall i, j :: 0 <= i < j < |segments| ==> segments[i] < segments[j]
    {
      if raw[k] < 0 || raw[k] >= planLength { return false, []; }
      segments := InsertOnce(segments, raw[k]);
    }
    assert raw[..|raw|] == raw;
    ok := true;
  }

  /** Keeps an ascending sequence ascending, without duplicates. */
  method InsertOnce(s: seq<int>, v: int) returns (t: seq<int>)
    requires forall i, j :: 0 <= i < j < |s| ==> s[i] < s[j]
    ensures forall i, j :: 0 <= i < j < |t| ==> t[i] < t[j]
    ensures forall x :: x in t <==> x in s || x == v
  {
    var p := 0;
    while p < |s| && s[p] < v
      invariant 0 <= p <= |s| && forall i :: 0 <= i < p ==> s[i] < v
    {
      p := p + 1;
    }
    if p < |s| && s[p] == v { t := s; } else {
      t := s[..p] + [v] + s[p..];
      forall x ensures x in t <==> x in s || x == v { assert s == s[..p] + s[p..]; }
    }
  }

  // ---- Commitment and openings ----

  function MakeCommitment(hash: Hash, sigma: string, inHash: string, plan: seq<Spec>, outputs: seq<Tensor>): Commitment
    requires |outputs| == |plan| > 0 && forall i :: 0 <= i < |outputs| ==> ValidTensor(outputs[i])
  {
    var hs := seq(|outputs|, i requires 0 <= i < |outputs| => TensorHash(hash, outputs[i]));
    Commitment(inHash, hs[|hs| - 1], Chain.Root(hash, sigma, inHash, plan, hs),
               seq(|plan|, i requires 0 <= i < |plan| => Committed(plan[i].idx, hs[i])))
  }

  /** The tensors sent for a challenged segment: its output and the earlier outputs it reads. */
  function Needed(job: Job, i: nat): set<nat> {
    {i} + set k | 0 <= k < |SpecAt(job, i).inputs| && SpecAt(job, i).inputs[k].Seg? :: SpecAt(job, i).inputs[k].j
  }

  function OpenSegment(job: Job, outputs: seq<Tensor>, i: nat): Opening {
    Opening(i, map j | j in Needed(job, i) && j < |outputs| :: outputs[j])
  }

  /** Segment `c` of block `l` needs its output, the one before it in the block, and the block's input if computed. */
  predicate Sent(l: nat, c: nat, j: nat) {
    j == 4 * l + c || (c > 0 && j == 4 * l + c - 1) || (l > 0 && (c == 0 || c == 3) && j == 4 * l - 1)
  }

  lemma ReadsAre(job: Job, l: nat, c: nat, j: nat, ins: seq<Ref>)
    requires c < 4 && ins == BlockSpec(job, l, c).inputs
    ensures (exists k :: 0 <= k < |ins| && ins[k] == Seg(j)) <==> j != 4 * l + c && Sent(l, c, j)
  {
    if c > 0 && j == 4 * l + c - 1 { assert ins[0] == Seg(j); }
    if l > 0 && c == 0 && j == 4 * l - 1 { assert ins[0] == Seg(j); }
    if l > 0 && c == 3 && j == 4 * l - 1 { assert ins[1] == Seg(j); }
  }

  /** An opening sends exactly those outputs. */
  lemma OpenedExactly(job: Job, outputs: seq<Tensor>, l: nat, c: nat, j: nat)
    requires |outputs| == 4 * |job.blocks| && l < |job.blocks| && c < 4
    ensures var o := OpenSegment(job, outputs, 4 * l + c);
      o.idx == 4 * l + c && (j in o.tensors <==> Sent(l, c, j)) && (j in o.tensors ==> o.tensors[j] == outputs[j])
  {
    var ins := BlockSpec(job, l, c).inputs;
    assert SpecAt(job, 4 * l + c).inputs == ins;
    ReadsAre(job, l, c, j, ins);
    if k :| 0 <= k < |ins| && ins[k] == Seg(j) { assert ins[k].Seg? && ins[k].j == j; }
  }

  lemma OutputsValid(job: Job)
    requires ValidJob(job)
    ensures forall i :: 0 <= i < 4 * |job.blocks| ==> ValidTensor(Interp(job, 4 * |job.blocks|)[i])
  {
    ChainIsGood(job, 4 * |job.blocks|);
    var outs := Interp(job, 4 * |job.blocks|);
    forall i | 0 <= i < |outs| ensures ValidTensor(outs[i]) { assert GoodOutput(job, i, outs[i]); }
  }

  /** The commitment an honest node builds. */
  ghost function HonestCommitment(hash: Hash, sigma: string, inHash: string, job: Job): Commitment
    requires ValidJob(job)
  {
    OutputsValid(job);
    MakeCommitment(hash, sigma, inHash, Plan(job), Interp(job, 4 * |job.blocks|))
  }

  lemma CommitmentFields(hash: Hash, sigma: string, inHash: string, plan: seq<Spec>, outs: seq<Tensor>)
    requires |outs| == |plan| > 0 && forall i :: 0 <= i < |outs| ==> ValidTensor(outs[i])
    requires forall q :: IsHash(hash(q))
    ensures var c := MakeCommitment(hash, sigma, inHash, plan, outs);
      && c.inputHash == inHash && MatchesPlan(plan, c)
        && c.chainRoot == Chain.Root(hash, sigma, inHash, plan, OutHashes(c))
      && c.outputHash == TensorHash(hash, outs[|outs| - 1]) == c.segments[|plan| - 1].outHash
      && forall i :: 0 <= i < |outs| ==> c.segments[i].outHash == TensorHash(hash, outs[i])
  {
    var c := MakeCommitment(hash, sigma, inHash, plan, outs);
    var hs := seq(|outs|, i requires 0 <= i < |outs| => TensorHash(hash, outs[i]));
    HashesAre(plan, hs, c);
  }

  lemma HashesAre(plan: seq<Spec>, hs: seq<string>, c: Commitment)
    requires |plan| == |hs| && (forall i :: 0 <= i < |hs| ==> IsHash(hs[i]))
    requires c.segments == seq(|plan|, i requires 0 <= i < |plan| => Committed(plan[i].idx, hs[i]))
    ensures OutHashes(c) == hs && MatchesPlan(plan, c)
  {
  }

  /** The honest commitment passes the bind check for every sigma. */
  lemma HonestCommitmentAccepted(hash: Hash, sigma: string, inHash: string, job: Job)
    requires ValidJob(job) && forall q :: IsHash(hash(q))
    ensures CheckCommitment(hash, sigma, inHash, Plan(job), HonestCommitment(hash, sigma, inHash, job),
      HonestResult(job), ResultSig(job)) == Accepted
  {
    OutputsValid(job);
    CommitmentFields(hash, sigma, inHash, Plan(job), Interp(job, 4 * |job.blocks|));
    ResultHasSig(job);
  }

  lemma ResultHasSig(job: Job)
    requires ValidJob(job)
    ensures ValidTensor(HonestResult(job)) && HasSig(HonestResult(job), ResultSig(job))
  {
    var n := 4 * |job.blocks|;
    ChainIsGood(job, n);
    assert GoodOutput(job, n - 1, Interp(job, n)[n - 1]);
  }

  // ---- Every honest opening passes ----

  /** The commitment's hashes are those of `outs`. */
  ghost predicate Commits(hash: Hash, outs: seq<Tensor>, cm: Commitment) {
    |cm.segments| == |outs| && forall i {:trigger cm.segments[i]} :: 0 <= i < |outs| ==>
      ValidTensor(outs[i]) && cm.segments[i].outHash == TensorHash(hash, outs[i])
  }

  lemma OpenedRead(hash: Hash, job: Job, outs: seq<Tensor>, cm: Commitment, i: nat, r: Ref, sig: Sig)
    requires Commits(hash, outs, cm) && i <= |outs| && (r.Seg? ==> r.j < i && r.j in Needed(job, i))
    requires ValidTensor(Arg(job, r, outs[..i])) && HasSig(Arg(job, r, outs[..i]), sig)
    ensures InputOk(hash, job, OpenSegment(job, outs, i), cm, r, sig)
    ensures Read(job, OpenSegment(job, outs, i), r) == Arg(job, r, outs[..i])
  {
    if r.Seg? { assert cm.segments[r.j].outHash == TensorHash(hash, outs[r.j]); }
  }

  lemma NeededRefs(job: Job, i: nat, k: nat)
    requires k < |SpecAt(job, i).inputs| && SpecAt(job, i).inputs[k].Seg?
    ensures SpecAt(job, i).inputs[k].j < i && SpecAt(job, i).inputs[k].j in Needed(job, i)
  {
    RefsAreEarlier(job, i, k);
  }

  lemma OpenedInputs(hash: Hash, job: Job, outs: seq<Tensor>, cm: Commitment, i: nat, kernel: Kernel)
    requires Commits(hash, outs, cm) && i <= |outs| && ArgsOk(kernel, Args(job, SpecAt(job, i).inputs, outs[..i]))
    ensures |kernel.ins| == |SpecAt(job, i).inputs|
    ensures InputsVerdict(hash, job, OpenSegment(job, outs, i), cm, SpecAt(job, i).inputs, kernel.ins) == Accepted
    ensures ReadAll(job, OpenSegment(job, outs, i), SpecAt(job, i).inputs)
      == Args(job, SpecAt(job, i).inputs, outs[..i])
  {
    var inputs := SpecAt(job, i).inputs;
    var o, args := OpenSegment(job, outs, i), Args(job, inputs, outs[..i]);
    forall k | 0 <= k < |inputs|
      ensures InputOk(hash, job, o, cm, inputs[k], kernel.ins[k]) && Read(job, o, inputs[k]) == args[k]
    {
      if inputs[k].Seg? { NeededRefs(job, i, k); }
      assert ValidTensor(args[k]) && HasSig(args[k], kernel.ins[k]);
      OpenedRead(hash, job, outs, cm, i, inputs[k], kernel.ins[k]);
    }
    InputsAllOk(hash, job, o, cm, inputs, kernel.ins);
  }

  lemma HonestGemm(gc: GemmCheck, kernel: Kernel, ins: seq<Tensor>, out: Tensor)
    requires Runnable(kernel, ins) && kernel.act.GemmAct? && kernel.out == Sig(I32, [kernel.act.m, kernel.act.n])
    requires out == Run(kernel, ins) && SmallEntries(out.data, ACC_MAX)
    ensures CheckGemm(gc, kernel.act, ins, out) == Accepted
  {
    GemmPasses(gc, ins[0].data, ins[1].data, ins[2].data, kernel.act.m, kernel.act.k, kernel.act.n);
  }

  /** The check of a segment whose inputs and output are the run's own. */
  lemma HonestSegment(
      hash: Hash, gc: GemmCheck, job: Job, spec: Spec, o: Opening, cm: Commitment, kernel: Kernel, out: Tensor)
    requires o.idx == spec.idx && |kernel.ins| == |spec.inputs|
    requires InputsVerdict(hash, job, o, cm, spec.inputs, kernel.ins) == Accepted
      && Runnable(kernel, ReadAll(job, o, spec.inputs))
    requires Served(hash, o, cm, spec.idx, kernel.out)
      && o.tensors[spec.idx] == out == Run(kernel, ReadAll(job, o, spec.inputs))
    requires if spec.kind.GemmKind? then kernel.act.GemmAct? && kernel.out == Sig(I32, [kernel.act.m, kernel.act.n])
      && SmallEntries(out.data, ACC_MAX)
             else spec.kind.Elementwise? && !kernel.act.GemmAct?
    ensures CheckOpening(hash, gc, job, spec, o, cm, kernel) == Accepted
  {
    if spec.kind.GemmKind? { HonestGemm(gc, kernel, ReadAll(job, o, spec.inputs), out); }
  }

  lemma KernelShape(job: Job, i: nat)
    requires DimsOk(job) && i < 4 * |job.blocks|
    ensures var k := KernelOf(job, SpecAt(job, i).op);
      && k.Some? && k.value.out == OutSig(job, i)
      && (if i % 2 == 0 then SpecAt(job, i).kind.GemmKind? && k.value.act.GemmAct?
        && k.value.out == Sig(I32, [k.value.act.m, k.value.act.n])
          else SpecAt(job, i).kind.Elementwise? && !k.value.act.GemmAct?)
  {
    var l, c := i / 4, i % 4;
    assert i == 4 * l + c && c % 2 == i % 2;
    ShapeAt(job, i, l, c);
  }

  lemma ShapeAt(job: Job, i: nat, l: nat, c: nat)
    requires DimsOk(job) && l < |job.blocks| && c < 4 && i == 4 * l + c
    ensures var k := KernelOf(job, SpecAt(job, i).op);
      && k.Some? && k.value.out == OutSig(job, i)
      && (if c % 2 == 0 then SpecAt(job, i).kind.GemmKind? && k.value.act.GemmAct?
        && k.value.out == Sig(I32, [k.value.act.m, k.value.act.n])
          else SpecAt(job, i).kind.Elementwise? && !k.value.act.GemmAct?)
  {
    SegmentOf(job, l, c);
  }

  lemma RunFacts(job: Job, i: nat)
    requires ValidJob(job) && i < 4 * |job.blocks|
    ensures var outs := Interp(job, 4 * |job.blocks|);
      var k := KernelOf(job, SpecAt(job, i).op);
      && k.Some? && Runnable(k.value, Args(job, SpecAt(job, i).inputs, outs[..i]))
      && outs[i] == Run(k.value, Args(job, SpecAt(job, i).inputs, outs[..i])) && GoodOutput(job, i, outs[i])
  {
    var n := 4 * |job.blocks|;
    InterpAt(job, n, i);
    InterpPrefix(job, i, n);
    assert Interp(job, n)[..i] == Interp(job, i);
    RunFits(job, i);
    FitsIsRunnable(job, i, Interp(job, i));
  }

  /** The honest opening of any segment passes, with the ideal check and with every choice of random vectors. */
  lemma HonestOpeningPasses(hash: Hash, gc: GemmCheck, sigma: string, inHash: string, job: Job, i: nat)
    requires ValidJob(job) && i < 4 * |job.blocks| && forall q :: IsHash(hash(q))
    ensures Passes(hash, gc, job, i, OpenSegment(job, Interp(job, 4 * |job.blocks|), i),
      HonestCommitment(hash, sigma, inHash, job))
  {
    var outs := Interp(job, 4 * |job.blocks|);
    OutputsValid(job);
    CommitmentFields(hash, sigma, inHash, Plan(job), outs);
    RunFacts(job, i);
    BlockFacts(job, 0);
    KernelShape(job, i);
    OpeningPasses(hash, gc, job, outs, HonestCommitment(hash, sigma, inHash, job), i,
      KernelOf(job, SpecAt(job, i).op).value);
  }

  lemma OpeningPasses(hash: Hash, gc: GemmCheck, job: Job, outs: seq<Tensor>, cm: Commitment, i: nat, kernel: Kernel)
    requires Commits(hash, outs, cm) && i < |outs| && KernelOf(job, SpecAt(job, i).op) == Some(kernel)
    requires Runnable(kernel, Args(job, SpecAt(job, i).inputs, outs[..i]))
      && outs[i] == Run(kernel, Args(job, SpecAt(job, i).inputs, outs[..i]))
    requires GoodOutput(job, i, outs[i]) && kernel.out == OutSig(job, i)
    requires if i % 2 == 0 then SpecAt(job, i).kind.GemmKind? && kernel.act.GemmAct?
      && kernel.out == Sig(I32, [kernel.act.m, kernel.act.n])
             else SpecAt(job, i).kind.Elementwise? && !kernel.act.GemmAct?
    ensures Passes(hash, gc, job, i, OpenSegment(job, outs, i), cm)
  {
    OpenedInputs(hash, job, outs, cm, i, kernel);
    IdxIsPosition(job, i);
    assert cm.segments[i].outHash == TensorHash(hash, outs[i]);
    HonestSegment(hash, gc, job, SpecAt(job, i), OpenSegment(job, outs, i), cm, kernel, outs[i]);
  }
}
