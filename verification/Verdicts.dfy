/**
 Whose fault a failed check is (shared/verification.ts:44-53, 145-260). For a valid job an opened segment is accepted or
 held against the node, never refused: a refusal would put it down to the job's own data. The bind check, where nothing
 is opened yet, only ever refuses.
 */
module Verdicts {
  import opened Field
  import opened Text
  import opened Tensors
  import opened Int8Work
  import opened CommitOpen
  import Chain

  /** The job's own inputs to a segment have the signatures its kernel asks for. */
  lemma OwnInputsFit(job: Job, l: nat, c: nat, k: nat)
    requires ValidJob(job) && l < |job.blocks| && c < 4 && DimsOk(job)
    requires var spec := BlockSpec(job, l, c); k < |spec.inputs| && spec.inputs[k].In?
    ensures |BlockKernel(job, l, c).ins| == |BlockSpec(job, l, c).inputs|
    ensures OwnInput(job, BlockSpec(job, l, c).inputs[k].name, BlockKernel(job, l, c).ins[k])
  {
    JobInputsGood(job, l);
  }

  /** With fitting inputs of the job's own, what fails is a served tensor, and that is the node's. */
  lemma {:induction false} InputsNotRefused(
      hash: Hash, job: Job, o: Opening, c: Commitment, inputs: seq<Ref>, sigs: seq<Sig>)
    requires |inputs| == |sigs|
    requires forall k :: 0 <= k < |inputs| && inputs[k].In? ==> OwnInput(job, inputs[k].name, sigs[k])
    ensures var v := InputsVerdict(hash, job, o, c, inputs, sigs); v == Accepted || v == Caught
  {
    if inputs != [] { InputsNotRefused(hash, job, o, c, inputs[1..], sigs[1..]); }
  }

  /** The inputs an accepted reading yields fit the kernel. */
  lemma ReadFits(hash: Hash, job: Job, o: Opening, c: Commitment, inputs: seq<Ref>, kernel: Kernel)
    requires |inputs| == |kernel.ins| && InputsVerdict(hash, job, o, c, inputs, kernel.ins) == Accepted
    ensures ArgsOk(kernel, ReadAll(job, o, inputs))
  {
    InputsAllOk(hash, job, o, c, inputs, kernel.ins);
    var ins := ReadAll(job, o, inputs);
    forall t | 0 <= t < |ins| ensures ValidTensor(ins[t]) && HasSig(ins[t], kernel.ins[t]) {
      assert InputOk(hash, job, o, c, inputs[t], kernel.ins[t]);
    }
  }

  /** Every tensor the segment reads from the opening is served as committed. */
  ghost predicate Supplied(hash: Hash, job: Job, o: Opening, c: Commitment, inputs: seq<Ref>, sigs: seq<Sig>)
    requires |inputs| == |sigs|
  {
    forall k :: 0 <= k < |inputs| && inputs[k].Seg? ==> Served(hash, o, c, inputs[k].j, sigs[k])
  }

  /** What the check compares: a product in range that passes its test, or the hash of the recomputed output. */
  ghost predicate Computed(
      hash: Hash, gc: GemmCheck, kernel: Kernel, ins: seq<Tensor>, out: Tensor, committed: string)
  {
    match kernel.act
    case GemmAct(m, k, n) =>
      && |ins| == 3 && (forall t :: 0 <= t < |out.data| ==> -HALF_P <= out.data[t] <= HALF_P)
      && ProductOk(gc, ins[0].data, ins[1].data, Unbias(out.data, ins[2].data, m, n), m, k, n)
    case _ => ValidTensor(Run(kernel, ins)) && TensorHash(hash, Run(kernel, ins)) == committed
  }

  lemma GemmVerdict(job: Job, l: nat, c: nat, gc: GemmCheck, ins: seq<Tensor>, out: Tensor)
    requires DimsOk(job) && l < |job.blocks| && (c == 0 || c == 2) && ArgsOk(BlockKernel(job, l, c), ins)
    requires ValidTensor(out) && HasSig(out, BlockKernel(job, l, c).out)
    ensures var act := BlockKernel(job, l, c).act;
      var passes := SmallEntries(out.data, HALF_P)
        && ProductOk(gc, ins[0].data, ins[1].data, Unbias(out.data, ins[2].data, act.m, act.n), act.m, act.k, act.n);
      CheckGemm(gc, act, ins, out) == if passes then Accepted else Caught
  {
    ProductOfTwo(job.b, job.d);
    ProductOfTwo(job.d, job.h);
    ProductOfTwo(job.b, job.h);
    ProductOfTwo(job.h, job.d);
  }

  lemma ElementwiseVerdict(hash: Hash, job: Job, l: nat, c: nat, ins: seq<Tensor>, committed: string)
    requires ValidJob(job) && l < |job.blocks| && (c == 1 || c == 3) && DimsOk(job)
      && ArgsOk(BlockKernel(job, l, c), ins)
    ensures var kernel := BlockKernel(job, l, c);
      && ValidTensor(Run(kernel, ins))
      && CheckElementwise(hash, kernel, ins, committed)
        == if TensorHash(hash, Run(kernel, ins)) == committed then Accepted else Caught
  {
    BlockFacts(job, l);
    var k := job.blocks[l];
    if c == 1 {
      assert ins == [ins[0]];
      Rq1Good(ins[0], k.m1, k.s1, LutOf(k), job.b, job.h);
    } else {
      assert ins == [ins[0], ins[1]];
      Rq2Good(ins[0], ins[1], k.m2, k.s2, job.b, job.d);
    }
  }

  /** The opening is of this segment, serves what it must as committed, and its output passes. */
  ghost predicate Fulfils(
      hash: Hash, gc: GemmCheck, job: Job, i: nat, inputs: seq<Ref>, kernel: Kernel, o: Opening, cm: Commitment)
    requires |inputs| == |kernel.ins|
  {
    && o.idx == i && Supplied(hash, job, o, cm, inputs, kernel.ins) && Served(hash, o, cm, i, kernel.out)
    && Computed(hash, gc, kernel, ReadAll(job, o, inputs), o.tensors[i], cm.segments[i].outHash)
  }

  /**
   The verdict on any opening of any segment of a valid job, with any product check: accepted exactly when the opening
   is of this segment, serves every tensor the segment reads and its output as committed, and the output passes; and in
   every other case held against the node.
   */
  lemma VerdictIs(hash: Hash, gc: GemmCheck, job: Job, l: nat, c: nat, o: Opening, cm: Commitment)
    requires ValidJob(job) && l < |job.blocks| && c < 4 && DimsOk(job)
    ensures var i, kernel, inputs := 4 * l + c, BlockKernel(job, l, c), BlockSpec(job, l, c).inputs;
      && |inputs| == |kernel.ins|
      && CheckOpening(hash, gc, job, BlockSpec(job, l, c), o, cm, kernel)
        == if Fulfils(hash, gc, job, i, inputs, kernel, o, cm) then Accepted else Caught
  {
    InputsVerdictIs(hash, job, l, c, o, cm);
    VerdictAt(hash, gc, job, l, c, o, cm, BlockSpec(job, l, c), BlockKernel(job, l, c));
  }

  lemma VerdictAt(
      hash: Hash, gc: GemmCheck, job: Job, l: nat, c: nat, o: Opening, cm: Commitment, spec: Spec, kernel: Kernel)
    requires ValidJob(job) && l < |job.blocks| && c < 4 && DimsOk(job) && kernel == BlockKernel(job, l, c)
    requires |kernel.ins| == |spec.inputs| && spec.idx == 4 * l + c
    requires spec.kind == if c == 0 || c == 2 then GemmKind else Elementwise
    requires InputsVerdict(hash, job, o, cm, spec.inputs, kernel.ins)
      == if Supplied(hash, job, o, cm, spec.inputs, kernel.ins) then Accepted else Caught
    ensures CheckOpening(hash, gc, job, spec, o, cm, kernel)
      == if Fulfils(hash, gc, job, spec.idx, spec.inputs, kernel, o, cm) then Accepted else Caught
  {
    if o.idx == spec.idx && Supplied(hash, job, o, cm, spec.inputs, kernel.ins)
      && Served(hash, o, cm, spec.idx, kernel.out)
    {
      ReadFits(hash, job, o, cm, spec.inputs, kernel);
      OutputVerdict(hash, gc, job, l, c, ReadAll(job, o, spec.inputs), o.tensors[spec.idx],
        cm.segments[spec.idx].outHash);
    }
    CheckUnfolds(hash, gc, job, spec, o, cm, kernel, spec.idx, spec.kind);
  }

  lemma CheckUnfolds(
      hash: Hash, gc: GemmCheck, job: Job, spec: Spec, o: Opening, cm: Commitment, kernel: Kernel, i: nat, kind: Kind)
    requires |kernel.ins| == |spec.inputs| && spec.idx == i && spec.kind == kind && !kind.Opaque?
    requires InputsVerdict(hash, job, o, cm, spec.inputs, kernel.ins)
      == if Supplied(hash, job, o, cm, spec.inputs, kernel.ins) then Accepted else Caught
    requires o.idx == i && Supplied(hash, job, o, cm, spec.inputs, kernel.ins) && Served(hash, o, cm, i, kernel.out) ==>
      var ins, committed := ReadAll(job, o, spec.inputs), cm.segments[i].outHash;
      var v := if kind.GemmKind? then CheckGemm(gc, kernel.act, ins, o.tensors[i])
               else CheckElementwise(hash, kernel, ins, committed);
      v == if Computed(hash, gc, kernel, ins, o.tensors[i], committed) then Accepted else Caught
    ensures CheckOpening(hash, gc, job, spec, o, cm, kernel)
      == if Fulfils(hash, gc, job, i, spec.inputs, kernel, o, cm) then Accepted else Caught
  {
  }

  /** The verdict on the output, by the segment's kind. */
  lemma OutputVerdict(
      hash: Hash, gc: GemmCheck, job: Job, l: nat, c: nat, ins: seq<Tensor>, out: Tensor, committed: string)
    requires ValidJob(job) && l < |job.blocks| && c < 4 && DimsOk(job) && ArgsOk(BlockKernel(job, l, c), ins)
    requires ValidTensor(out) && HasSig(out, BlockKernel(job, l, c).out)
    ensures var kernel := BlockKernel(job, l, c);
      var v := if c == 0 || c == 2 then CheckGemm(gc, kernel.act, ins, out)
               else CheckElementwise(hash, kernel, ins, committed);
      v == if Computed(hash, gc, kernel, ins, out, committed) then Accepted else Caught
  {
    if c == 0 || c == 2 {
      GemmVerdict(job, l, c, gc, ins, out);
    } else {
      ElementwiseVerdict(hash, job, l, c, ins, committed);
    }
  }

  lemma InputsVerdictIs(hash: Hash, job: Job, l: nat, c: nat, o: Opening, cm: Commitment)
    requires ValidJob(job) && l < |job.blocks| && c < 4 && DimsOk(job)
    ensures var inputs, sigs := BlockSpec(job, l, c).inputs, BlockKernel(job, l, c).ins;
      && |inputs| == |sigs|
      && InputsVerdict(hash, job, o, cm, inputs, sigs)
        == if Supplied(hash, job, o, cm, inputs, sigs) then Accepted else Caught
  {
    var inputs, sigs := BlockSpec(job, l, c).inputs, BlockKernel(job, l, c).ins;
    forall k | 0 <= k < |inputs| && inputs[k].In? ensures OwnInput(job, inputs[k].name, sigs[k]) {
      OwnInputsFit(job, l, c, k);
    }
    InputsNotRefused(hash, job, o, cm, inputs, sigs);
    InputsAllOk(hash, job, o, cm, inputs, sigs);
    if Supplied(hash, job, o, cm, inputs, sigs) {
      forall k | 0 <= k < |inputs| ensures InputOk(hash, job, o, cm, inputs[k], sigs[k]) { }
    } else {
      var k :| 0 <= k < |inputs| && inputs[k].Seg? && !Served(hash, o, cm, inputs[k].j, sigs[k]);
      assert !InputOk(hash, job, o, cm, inputs[k], sigs[k]);
    }
  }

  /** With the ideal check a product passes exactly when it is the product of the tensors served. */
  lemma IdealIsExact(hash: Hash, job: Job, l: nat, c: nat, ins: seq<Tensor>, out: Tensor, committed: string)
    requires ValidJob(job) && l < |job.blocks| && (c == 0 || c == 2) && DimsOk(job)
      && ArgsOk(BlockKernel(job, l, c), ins)
    requires ValidTensor(out) && HasSig(out, BlockKernel(job, l, c).out)
    requires Within(ins[2].data, BlockKernel(job, l, c).act.n, -BIAS_MAX, BIAS_MAX)
    ensures Computed(hash, Ideal, BlockKernel(job, l, c), ins, out, committed)
      <==> out == Run(BlockKernel(job, l, c), ins)
  {
    var kernel := BlockKernel(job, l, c);
    var (m, k, n) := (kernel.act.m, kernel.act.k, kernel.act.n);
    ProductOfTwo(m, n);
    ProductOfTwo(m, k);
    ProductOfTwo(k, n);
    GemmVerdict(job, l, c, Ideal, ins, out);
    Int8Within(ins[0], m, k);
    Int8Within(ins[1], k, n);
    if Computed(hash, Ideal, kernel, ins, out, committed) { PassedGemm(kernel, ins, out, m, k, n); }
    if out == Run(kernel, ins) {
      GemmPasses(Ideal, ins[0].data, ins[1].data, ins[2].data, m, k, n);
      GemmBound(ins[0].data, ins[1].data, ins[2].data, m, k, n);
    }
  }

  /**
   The bind check accepts exactly the commitment that carries the job's input hash, the chain root and the result's hash
   over segments that follow the plan and end in that hash, with a result of the right signature; else it refuses, and
   holds nothing against the node.
   */
  lemma BindVerdictIs(
      hash: Hash, sigma: string, inHash: string, plan: seq<Spec>, c: Commitment, result: Tensor, sig: Sig)
    requires plan != []
    ensures var v := CheckCommitment(hash, sigma, inHash, plan, c, result, sig);
      && (v == Accepted || v == Refused)
      && (v == Accepted <==>
           && |c.segments| == |plan| && (forall i :: 0 <= i < |plan| ==> BoundAt(plan, c, i))
           && ValidTensor(result) && HasSig(result, sig) && c.segments[|plan| - 1].outHash == TensorHash(hash, result)
           && c == Commitment(inHash, TensorHash(hash, result), Chain.Root(hash, sigma, inHash, plan, OutHashes(c)),
                              c.segments))
  {
    if |c.segments| == |plan| { MatchesIs(plan, c); }
  }

  lemma MatchesIs(plan: seq<Spec>, c: Commitment)
    requires |plan| == |c.segments|
    ensures MatchesPlan(plan, c) <==> forall i :: 0 <= i < |plan| ==> BoundAt(plan, c, i)
  {
    forall i | 0 <= i < |plan|
      ensures BoundAt(plan, c, i) <==> c.segments[i].idx == plan[i].idx && IsHash(c.segments[i].outHash)
    {
      HexDigits(c.segments[i].outHash);
    }
  }

  lemma HexDigits(s: string)
    ensures |s| == 64 ==> (IsHash(s) <==> forall k :: 0 <= k < 64 ==> s[k] in "0123456789abcdef")
  {
    forall x: char ensures x in "0123456789abcdef" <==> '0' <= x <= '9' || 'a' <= x <= 'f' { HexDigit(x); }
  }

  lemma HexDigit(x: char)
    ensures x in "0123456789abcdef" <==> '0' <= x <= '9' || 'a' <= x <= 'f'
  {
    if '0' <= x <= '9' { assert "0123456789abcdef"[x as int - '0' as int] == x; }
    if 'a' <= x <= 'f' { assert "0123456789abcdef"[10 + x as int - 'a' as int] == x; }
  }

  /** Segment `i` has the plan's index and a hash of 64 lower-case hexadecimal digits. */
  predicate BoundAt(plan: seq<Spec>, c: Commitment, i: nat)
    requires i < |plan| == |c.segments|
  {
    c.segments[i].idx == plan[i].idx && |c.segments[i].outHash| == 64 && forall k :: 0 <= k < 64 ==>
      c.segments[i].outHash[k] in "0123456789abcdef"
  }
}
