/**
 The opening check as it runs (shared/verification.ts): read the inputs in plan order, check the output, subtract the
 bias within the range check and run Freivalds, or recompute and compare hashes.
 */
module OpeningCheck {
  import opened Field
  import opened Matrices
  import opened Freivalds
  import opened Wrappers
  import opened Tensors
  import opened Int8Work
  import opened CommitOpen
  import opened HonestWork
  import opened Verdicts

  lemma VerdictFrom(hash: Hash, job: Job, o: Opening, c: Commitment, inputs: seq<Ref>, sigs: seq<Sig>, k: nat)
    requires |inputs| == |sigs| && k < |inputs|
    ensures InputsVerdict(hash, job, o, c, inputs[k..], sigs[k..]) ==
      if InputOk(hash, job, o, c, inputs[k], sigs[k])
        then InputsVerdict(hash, job, o, c, inputs[k + 1..], sigs[k + 1..])
      else if inputs[k].In? then Refused else Caught
  {
    assert inputs[k..][1..] == inputs[k + 1..] && sigs[k..][1..] == sigs[k + 1..];
  }

  /** The loop over a segment's inputs: the first that does not fit ends it. */
  method ReadInputs(
      hash: Hash, job: Job, o: Opening, c: Commitment, inputs: seq<Ref>, sigs: seq<Sig>)
      returns (v: Verdict, ins: seq<Tensor>)
    requires |inputs| == |sigs|
    ensures v == InputsVerdict(hash, job, o, c, inputs, sigs)
    ensures v == Accepted ==> ins == ReadAll(job, o, inputs)
  {
    ins := [];
    assert inputs[0..] == inputs && sigs[0..] == sigs;
    for k := 0 to |inputs|
      invariant InputsVerdict(hash, job, o, c, inputs, sigs) == InputsVerdict(hash, job, o, c, inputs[k..], sigs[k..])
      invariant |ins| == k && forall t :: 0 <= t < k ==> ins[t] == Read(job, o, inputs[t])
    {
      VerdictFrom(hash, job, o, c, inputs, sigs, k);
      if !InputOk(hash, job, o, c, inputs[k], sigs[k]) {
        return if inputs[k].In? then Refused else Caught, ins;
      }
      ins := ins + [Read(job, o, inputs[k])];
    }
    v := Accepted;
  }

  /** The loop that range-checks the output and subtracts the bias. */
  method SubtractBias(out: seq<int>, bias: seq<int>, m: nat, n: nat) returns (ok: bool, c: seq<int>)
    requires |out| == m * n && |bias| == n
    ensures ok <==> SmallEntries(out, HALF_P)
    ensures ok ==> c == Unbias(out, bias, m, n)
  {
    c := [];
    for i := 0 to m
      invariant |c| == i * n <= |out| && Subtracted(out, bias, m, n, c)
    {
      RowRoom(i, m, n);
      for j := 0 to n
        invariant |c| == i * n + j <= |out| && Subtracted(out, bias, m, n, c)
      {
        var t := i * n + j;
        var v := out[t];
        if v > HALF_P || v < -HALF_P { return false, []; }
        UnbiasAt(out, bias, m, n, i, j, t);
        c := c + [v - bias[j]];
      }
    }
    ok := true;
  }

  /** The entries done so far are in range, and the bias is subtracted from them. */
  ghost predicate Subtracted(out: seq<int>, bias: seq<int>, m: nat, n: nat, c: seq<int>) {
    |c| <= |out| && forall t :: 0 <= t < |c| ==> -HALF_P <= out[t] <= HALF_P && c[t] == Unbias(out, bias, m, n)[t]
  }

  lemma UnbiasAt(out: seq<int>, bias: seq<int>, m: nat, n: nat, i: nat, j: nat, t: nat)
    requires |bias| == n && j < n && t == i * n + j && t < |out|
    ensures Unbias(out, bias, m, n)[t] == out[t] - bias[j]
  {
    ColumnOf(i, j, n);
    assert t % n == j && Vec(bias)(j) == bias[j];
  }

  lemma RowRoom(i: nat, m: nat, n: nat)
    requires i < m
    ensures i * n + n == (i + 1) * n <= m * n
  {
    assert (m - i - 1) * n >= 0;
    assert (m - i - 1) * n == m * n - (i + 1) * n;
  }

  lemma ColumnOf(i: nat, j: nat, n: nat)
    requires j < n
    ensures (i * n + j) % n == j
  {
    IxIsRowMajor(i, j, n);
    DivModIx(i, j, n);
  }

  lemma BoundedTensor(t: Tensor, sig: Sig)
    requires ValidTensor(t) && HasSig(t, sig) && sig.dtype == I8
    ensures Bounded(t.data)
  {
  }

  lemma BoundedUnbias(out: seq<int>, bias: seq<int>, m: nat, n: nat)
    requires SmallEntries(out, HALF_P) && Within(bias, n, -BIAS_MAX, BIAS_MAX)
    ensures Bounded(Unbias(out, bias, m, n))
  {
    forall k ensures -BIAS_MAX <= Vec(bias)(k) <= BIAS_MAX { }
    forall t | 0 <= t < |out| ensures -ENTRY_LIMIT < Unbias(out, bias, m, n)[t] < ENTRY_LIMIT {
      SmallDifference(out[t], if n == 0 then 0 else Vec(bias)(t % n));
    }
  }

  lemma SmallDifference(v: int, w: int)
    requires -HALF_P <= v <= HALF_P && -BIAS_MAX <= w <= BIAS_MAX
    ensures -ENTRY_LIMIT < v - w < ENTRY_LIMIT
  {
  }

  /** The check of a gemm segment on operands the kernel's signatures bound. */
  method RunGemm(act: Action, ins: seq<Tensor>, out: Tensor, rs: seq<seq<int>>) returns (v: Verdict)
    requires act.GemmAct? && |ins| == 3 && Bounded(ins[0].data) && Bounded(ins[1].data)
      && Within(ins[2].data, act.n, -BIAS_MAX, BIAS_MAX)
    requires Rounds(rs, act.n) && ValidTensor(out)
    ensures v == CheckGemm(WithVectors(rs), act, ins, out)
  {
    var a, b, bias := ins[0].data, ins[1].data, ins[2].data;
    if |a| != act.m * act.k || |b| != act.k * act.n || |bias| != act.n || !HasSig(out, Sig(I32, [act.m, act.n])) {
      return Refused;
    }
    ProductOfTwo(act.m, act.n);
    var ok, c := SubtractBias(out.data, bias, act.m, act.n);
    if !ok { return Caught; }
    BoundedUnbias(out.data, bias, act.m, act.n);
    var pass := FreivaldsRect(a, b, c, act.m, act.k, act.n, rs);
    v := if pass then Accepted else Caught;
  }

  /** The check of an elementwise segment: recompute and compare hashes. */
  method RunElementwise(hash: Hash, kernel: Kernel, ins: seq<Tensor>, committed: string) returns (v: Verdict)
    requires !kernel.act.GemmAct? && Runnable(kernel, ins)
    ensures v == CheckElementwise(hash, kernel, ins, committed)
  {
    var want := RunSegment(kernel, ins);
    if !ValidTensor(want) { return Fault; }
    v := if TensorHash(hash, want) == committed then Accepted else Caught;
  }

  /** The bias a gemm segment reads is the job's own. */
  lemma BiasIsOwn(job: Job, l: nat, c: nat, o: Opening)
    requires ValidJob(job) && l < |job.blocks| && (c == 0 || c == 2)
    ensures var ins := ReadAll(job, o, BlockSpec(job, l, c).inputs);
      |ins| == 3 && Within(ins[2].data, BlockKernel(job, l, c).act.n, -BIAS_MAX, BIAS_MAX)
  {
    JobInputsGood(job, l);
    BlockFacts(job, l);
  }

  /** The opening check of segment `i` of a valid job, on any opening and commitment, with the random vectors `rs`. */
  method CheckSegment(
      hash: Hash, rs: seq<seq<int>>, job: Job, l: nat, c: nat, o: Opening, cm: Commitment) returns (v: Verdict)
    requires ValidJob(job) && l < |job.blocks| && c < 4 && Rounds(rs, if c == 0 then job.h else job.d)
    ensures v == CheckOpening(hash, WithVectors(rs), job, SpecAt(job, 4 * l + c), o, cm, BlockKernel(job, l, c))
    ensures KernelOf(job, SpecAt(job, 4 * l + c).op) == Some(BlockKernel(job, l, c))
    ensures var inputs, kernel := BlockSpec(job, l, c).inputs, BlockKernel(job, l, c);
      && |inputs| == |kernel.ins|
      && v == if Fulfils(hash, WithVectors(rs), job, 4 * l + c, inputs, kernel, o, cm) then Accepted else Caught
  {
    BlockFacts(job, l);
    SegmentOf(job, l, c);
    VerdictIs(hash, WithVectors(rs), job, l, c, o, cm);
    var spec, kernel := BlockSpec(job, l, c), BlockKernel(job, l, c);
    if o.idx != spec.idx { return Caught; }
    var ins;
    v, ins := ReadInputs(hash, job, o, cm, spec.inputs, kernel.ins);
    if v != Accepted { return v; }
    if !Served(hash, o, cm, spec.idx, kernel.out) { return Caught; }
    ReadFits(hash, job, o, cm, spec.inputs, kernel);
    assert ValidBlock(job.d, job.h, job.blocks[l]);
    RunnableKernel(job, l, c, ins);
    if c == 0 || c == 2 {
      BiasIsOwn(job, l, c, o);
      BoundedTensor(ins[0], kernel.ins[0]);
      BoundedTensor(ins[1], kernel.ins[1]);
      v := RunGemm(kernel.act, ins, o.tensors[spec.idx], rs);
    } else {
      v := RunElementwise(hash, kernel, ins, cm.segments[spec.idx].outHash);
    }
  }
}
