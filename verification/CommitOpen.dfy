/**
 Commit-then-open verification (shared/verification.ts): the bind check of a commitment, the
 check of one opened segment, what the honest node submits (node-agent/src/work.ts), and the two
 theorems that tie them together.
 */
module CommitOpen {
  import opened Sums
  import opened Field
  import opened Matrices
  import opened Freivalds
  import opened Text
  import opened Tensors
  import opened Int8Work
  import Chain

  /**
   `Refused` has no stage (nothing is held against the node); `Caught` has one; `Fault` is where the source throws.
   */
  datatype Verdict = Accepted | Refused | Caught | Fault

  datatype Committed = Committed(idx: int, outHash: string)
  datatype Commitment = Commitment(inputHash: string, outputHash: string, chainRoot: string, segments: seq<Committed>)
  datatype Opening = Opening(idx: int, tensors: map<nat, Tensor>)

  function OutHashes(c: Commitment): seq<string> {
    seq(|c.segments|, i requires 0 <= i < |c.segments| => c.segments[i].outHash)
  }

  predicate MatchesPlan(plan: seq<Spec>, c: Commitment) {
    && |c.segments| == |plan|
    && forall i :: 0 <= i < |plan| ==> c.segments[i].idx == plan[i].idx && IsHash(c.segments[i].outHash)
  }

  /** The bind check; `inHash` is the server's hash of the job's own inputs. */
  function CheckCommitment(
      hash: Hash, sigma: string, inHash: string, plan: seq<Spec>, c: Commitment, result: Tensor, sig: Sig): Verdict
  {
    if c.inputHash != inHash then Refused
    else if !MatchesPlan(plan, c) then Refused
    else if c.chainRoot != Chain.Root(hash, sigma, c.inputHash, plan, OutHashes(c)) then Refused
    else if !ValidTensor(result) || !HasSig(result, sig) then Refused
    else if |plan| == 0 || c.outputHash != TensorHash(hash, result) then Refused
    else if c.outputHash != c.segments[|plan| - 1].outHash then Refused
    else Accepted
  }

  /** How the product of a gemm segment is checked: as an identity modulo `P`, or with the given random vectors. */
  datatype GemmCheck = Ideal | WithVectors(rs: seq<seq<int>>)

  ghost predicate ProductOk(gc: GemmCheck, a: seq<int>, b: seq<int>, c: seq<int>, m: nat, k: nat, n: nat) {
    match gc
    case Ideal => CongMx(m, n, Prod(k, Mat(m, k, a), Mat(k, n, b)), Mat(m, n, c))
    case WithVectors(rs) => Accepts(a, b, c, m, k, n, rs)
  }

  /** A served tensor: well-formed, of its exact signature, and hashing to what was committed for segment `j`. */
  predicate Served(hash: Hash, o: Opening, c: Commitment, j: nat, sig: Sig) {
    && j in o.tensors && ValidTensor(o.tensors[j]) && HasSig(o.tensors[j], sig)
    && j < |c.segments| && TensorHash(hash, o.tensors[j]) == c.segments[j].outHash
  }

  predicate OwnInput(job: Job, name: Name, sig: Sig) {
    var t := JobInput(job, name);
    t.Some? && ValidTensor(t.value) && HasSig(t.value, sig)
  }

  predicate InputOk(hash: Hash, job: Job, o: Opening, c: Commitment, r: Ref, sig: Sig) {
    match r case In(name) => OwnInput(job, name, sig) case Seg(j) => Served(hash, o, c, j, sig)
  }

  /** First input, in plan order, that is not acceptable: its verdict; `Accepted` when all are. */
  function InputsVerdict(hash: Hash, job: Job, o: Opening, c: Commitment, inputs: seq<Ref>, sigs: seq<Sig>): Verdict
    requires |inputs| == |sigs|
  {
    if inputs == [] then Accepted
    else if InputOk(hash, job, o, c, inputs[0], sigs[0]) then InputsVerdict(hash, job, o, c, inputs[1..], sigs[1..])
    else if inputs[0].In? then Refused else Caught
  }

  /** The tensor an opening provides for an input. */
  function Read(job: Job, o: Opening, r: Ref): Tensor {
    match r
    case In(name) => var t := JobInput(job, name); if t.Some? then t.value else Tensor(I8, [], [])
    case Seg(j) => if j in o.tensors then o.tensors[j] else Tensor(I8, [], [])
  }

  function ReadAll(job: Job, o: Opening, inputs: seq<Ref>): seq<Tensor> {
    seq(|inputs|, k requires 0 <= k < |inputs| => Read(job, o, inputs[k]))
  }

  /** The claimed product with the bias subtracted: what is compared with `A·B`. */
  function Unbias(out: seq<int>, bias: seq<int>, m: nat, n: nat): seq<int> {
    seq(|out|, t requires 0 <= t < |out| => if n == 0 then 0 else out[t] - Vec(bias)(t % n))
  }

  ghost function CheckGemm(gc: GemmCheck, act: Action, ins: seq<Tensor>, out: Tensor): Verdict {
    if !act.GemmAct? || |ins| != 3 then Fault else
    var (a, b, bias) := (ins[0].data, ins[1].data, ins[2].data);
    var (m, k, n) := (act.m, act.k, act.n);
    if |a| != m * k || |b| != k * n || |bias| != n || !HasSig(out, Sig(I32, [m, n])) then Refused
    else if !SmallEntries(out.data, HALF_P) then Caught
    else if ProductOk(gc, a, b, Unbias(out.data, bias, m, n), m, k, n) then Accepted else Caught
  }

  function CheckElementwise(hash: Hash, kernel: Kernel, ins: seq<Tensor>, committed: string): Verdict {
    if kernel.act.GemmAct? then Fault else
    var want := Run(kernel, ins);
    if !ValidTensor(want) then Fault
    else if TensorHash(hash, want) == committed then Accepted else Caught
  }

  /** The check of one opened segment. */
  ghost function CheckOpening(
      hash: Hash, gc: GemmCheck, job: Job, spec: Spec, o: Opening, c: Commitment, kernel: Kernel): Verdict
  {
    if o.idx != spec.idx then Caught
    else if |kernel.ins| != |spec.inputs| then Refused
    else
      var v := InputsVerdict(hash, job, o, c, spec.inputs, kernel.ins);
      if v != Accepted then v
      else if !Served(hash, o, c, spec.idx, kernel.out) then Caught
      else
        var ins := ReadAll(job, o, spec.inputs);
        match spec.kind
        case GemmKind => CheckGemm(gc, kernel.act, ins, o.tensors[spec.idx])
        case Elementwise => CheckElementwise(hash, kernel, ins, c.segments[spec.idx].outHash)
        case Opaque => Fault
  }

  /** Opening `o` of segment `i` passes; an op the job does not have is a fault. */
  ghost predicate Passes(hash: Hash, gc: GemmCheck, job: Job, i: nat, o: Opening, c: Commitment) {
    var kernel := KernelOf(job, SpecAt(job, i).op);
    kernel.Some? && CheckOpening(hash, gc, job, SpecAt(job, i), o, c, kernel.value) == Accepted
  }

  lemma {:induction false} InputsAllOk(
      hash: Hash, job: Job, o: Opening, c: Commitment, inputs: seq<Ref>, sigs: seq<Sig>)
    requires |inputs| == |sigs|
    ensures InputsVerdict(hash, job, o, c, inputs, sigs) == Accepted <==>
      forall k :: 0 <= k < |inputs| ==> InputOk(hash, job, o, c, inputs[k], sigs[k])
  {
    if inputs != [] {
      InputsAllOk(hash, job, o, c, inputs[1..], sigs[1..]);
      if forall k :: 0 <= k < |inputs| ==> InputOk(hash, job, o, c, inputs[k], sigs[k]) {
        forall k | 0 <= k < |inputs[1..]| ensures InputOk(hash, job, o, c, inputs[1..][k], sigs[1..][k]) {
          assert InputOk(hash, job, o, c, inputs[k + 1], sigs[k + 1]);
        }
      }
      if InputsVerdict(hash, job, o, c, inputs, sigs) == Accepted {
        forall k | 0 <= k < |inputs| ensures InputOk(hash, job, o, c, inputs[k], sigs[k]) {
          if k > 0 { assert InputOk(hash, job, o, c, inputs[1..][k - 1], sigs[1..][k - 1]); }
        }
      }
    }
  }

  // ---- A passing product is the exact product ----

  lemma UnbiasEntry(out: seq<int>, bias: seq<int>, m: nat, n: nat, i: int, j: int)
    requires |out| == m * n && 0 <= i < m && 0 <= j < n
    ensures Mat(m, n, Unbias(out, bias, m, n))(i, j) == Mat(m, n, out)(i, j) - Vec(bias)(j)
  {
    IxFacts(m, n);
    DivModIx(i, j, n);
  }

  lemma CentredUnique(x: int, y: int)
    requires -HALF_P <= x <= HALF_P && -HALF_P <= y <= HALF_P && Cong(x, y)
    ensures x == y
  {
  }

  /** The range check makes the identity modulo `P` an identity over the integers. */
  lemma GemmExact(out: seq<int>, a: seq<int>, b: seq<int>, bias: seq<int>, m: nat, k: nat, n: nat)
    requires |out| == m * n && SmallEntries(out, HALF_P) && k <= DIM_MAX
    requires Within(a, m * k, -128, 127) && Within(b, k * n, -128, 127) && Within(bias, n, -BIAS_MAX, BIAS_MAX)
    requires ProductOk(Ideal, a, b, Unbias(out, bias, m, n), m, k, n)
    ensures out == Gemm(a, b, bias, m, k, n)
  {
    GemmBound(a, b, bias, m, k, n);
    var p := Prod(k, Mat(m, k, a), Mat(k, n, b));
    forall i, j ensures -ACC_MAX <= p(i, j) + Vec(bias)(j) <= ACC_MAX {
      assert -ACC_MAX <= GemmEntry(a, b, bias, m, k, n, i, j) <= ACC_MAX;
    }
    EntriesExact(out, p, bias, m, n);
    GemmByEntries(out, a, b, bias, m, k, n);
  }

  lemma EntriesExact(out: seq<int>, p: Mx, bias: seq<int>, m: nat, n: nat)
    requires |out| == m * n && SmallEntries(out, HALF_P)
    requires CongMx(m, n, p, Mat(m, n, Unbias(out, bias, m, n)))
    requires forall i, j :: -ACC_MAX <= p(i, j) + Vec(bias)(j) <= ACC_MAX
    ensures forall i, j :: 0 <= i < m && 0 <= j < n ==> At(Matrix(m, n, out), i, j) == p(i, j) + Vec(bias)(j)
  {
    forall i, j | 0 <= i < m && 0 <= j < n ensures At(Matrix(m, n, out), i, j) == p(i, j) + Vec(bias)(j) {
      EntryExact(out, p(i, j), bias, m, n, i, j);
    }
  }

  lemma EntryExact(out: seq<int>, p: int, bias: seq<int>, m: nat, n: nat, i: int, j: int)
    requires |out| == m * n && SmallEntries(out, HALF_P) && 0 <= i < m && 0 <= j < n
    requires Cong(p, Mat(m, n, Unbias(out, bias, m, n))(i, j)) && -ACC_MAX <= p + Vec(bias)(j) <= ACC_MAX
    ensures Mat(m, n, out)(i, j) == p + Vec(bias)(j)
  {
    UnbiasEntry(out, bias, m, n, i, j);
    CongShift(p, Mat(m, n, out)(i, j) - Vec(bias)(j), Vec(bias)(j));
    EntrySmall(out, m, n, i, j);
    CentredUnique(p + Vec(bias)(j), Mat(m, n, out)(i, j));
  }

  lemma EntrySmall(out: seq<int>, m: nat, n: nat, i: int, j: int)
    requires SmallEntries(out, HALF_P)
    ensures -HALF_P <= Mat(m, n, out)(i, j) <= HALF_P
  {
    IxFacts(m, n);
  }

  /** The true product passes, whichever way it is checked. */
  lemma GemmPasses(gc: GemmCheck, a: seq<int>, b: seq<int>, bias: seq<int>, m: nat, k: nat, n: nat)
    requires |a| == m * k && |b| == k * n && |bias| == n
    ensures ProductOk(gc, a, b, Unbias(Gemm(a, b, bias, m, k, n), bias, m, n), m, k, n)
  {
    var out := Gemm(a, b, bias, m, k, n);
    var c := Unbias(out, bias, m, n);
    GemmByEntries(out, a, b, bias, m, k, n);
    var p := Prod(k, Mat(m, k, a), Mat(k, n, b));
    forall i, j | 0 <= i < m && 0 <= j < n ensures Cong(p(i, j), Mat(m, n, c)(i, j)) {
      UnbiasEntry(out, bias, m, n, i, j);
      assert At(Matrix(m, n, out), i, j) == GemmEntry(a, b, bias, m, k, n, i, j);
    }
    if gc.WithVectors? {
      forall t | 0 <= t < |gc.rs| ensures RoundPasses(Mat(m, k, a), Mat(k, n, b), Mat(m, n, c), m, k, n, gc.rs[t]) {
        Complete(Mat(m, k, a), Mat(k, n, b), Mat(m, n, c), m, k, n, gc.rs[t]);
      }
    }
  }

  // ---- Soundness ----

  /** The opening holds a well-formed tensor with the hash committed for segment `j`. */
  predicate Holds(hash: Hash, o: Opening, c: Commitment, j: nat) {
    j in o.tensors && ValidTensor(o.tensors[j]) && j < |c.segments|
      && TensorHash(hash, o.tensors[j]) == c.segments[j].outHash
  }

  /** It holds the segment's output and every earlier output the segment reads. */
  ghost predicate HoldsAll(hash: Hash, spec: Spec, o: Opening, c: Commitment) {
    && Holds(hash, o, c, spec.idx)
    && forall k :: 0 <= k < |spec.inputs| && spec.inputs[k].Seg? ==> Holds(hash, o, c, spec.inputs[k].j)
  }

  lemma AcceptedOpening(hash: Hash, gc: GemmCheck, job: Job, spec: Spec, o: Opening, c: Commitment, kernel: Kernel)
    requires CheckOpening(hash, gc, job, spec, o, c, kernel) == Accepted
    ensures ArgsOk(kernel, ReadAll(job, o, spec.inputs)) && Served(hash, o, c, spec.idx, kernel.out)
    ensures HoldsAll(hash, spec, o, c)
    ensures spec.kind.GemmKind? ==>
      CheckGemm(gc, kernel.act, ReadAll(job, o, spec.inputs), o.tensors[spec.idx]) == Accepted
    ensures !spec.kind.GemmKind? ==>
      CheckElementwise(hash, kernel, ReadAll(job, o, spec.inputs), c.segments[spec.idx].outHash) == Accepted
  {
    InputsAllOk(hash, job, o, c, spec.inputs, kernel.ins);
    forall t | 0 <= t < |spec.inputs|
      ensures ValidTensor(Read(job, o, spec.inputs[t])) && HasSig(Read(job, o, spec.inputs[t]), kernel.ins[t])
      ensures spec.inputs[t].Seg? ==> Holds(hash, o, c, spec.inputs[t].j)
    {
      assert InputOk(hash, job, o, c, spec.inputs[t], kernel.ins[t]);
    }
  }

  lemma IdxIsPosition(job: Job, i: nat)
    ensures SpecAt(job, i).idx == i
  {
  }

  lemma PassedHolds(hash: Hash, gc: GemmCheck, job: Job, i: nat, o: Opening, c: Commitment)
    requires Passes(hash, gc, job, i, o, c)
    ensures HoldsAll(hash, SpecAt(job, i), o, c) && Holds(hash, o, c, i)
  {
    AcceptedOpening(hash, gc, job, SpecAt(job, i), o, c, KernelOf(job, SpecAt(job, i).op).value);
    IdxIsPosition(job, i);
  }

  lemma GemmInputs(job: Job, l: nat, o: Opening)
    requires ValidJob(job) && l < |job.blocks|
    ensures var k := job.blocks[l];
      && ReadAll(job, o, BlockSpec(job, l, 0).inputs)
        == [Read(job, o, XRef(l)), Tensor(I8, [job.d, job.h], k.w1), Tensor(I32, [job.h], k.b1)]
      && ReadAll(job, o, BlockSpec(job, l, 2).inputs)
        == [Read(job, o, Seg(4 * l + 1)), Tensor(I8, [job.h, job.d], k.w2), Tensor(I32, [job.d], k.b2)]
  {
    JobInputsGood(job, l);
  }

  lemma Int8Within(t: Tensor, m: int, n: int)
    requires ValidTensor(t) && HasSig(t, Sig(I8, [m, n]))
    ensures Within(t.data, m * n, -128, 127)
  {
    ProductOfTwo(m, n);
  }

  /** A gemm opening that passes the ideal check holds exactly the product of the tensors it provides. */
  lemma PassedGemm(kernel: Kernel, ins: seq<Tensor>, out: Tensor, m: int, k: int, n: int)
    requires m > 0 && 0 < k <= DIM_MAX && n > 0 && kernel.act == GemmAct(m, k, n) && kernel.out == Sig(I32, [m, n])
      && |ins| == 3
    requires ValidTensor(ins[0]) && HasSig(ins[0], Sig(I8, [m, k])) && Within(ins[1].data, k * n, -128, 127)
      && Within(ins[2].data, n, -BIAS_MAX, BIAS_MAX)
    requires ValidTensor(out) && HasSig(out, kernel.out) && CheckGemm(Ideal, kernel.act, ins, out) == Accepted
    ensures out == Run(kernel, ins)
  {
    Int8Within(ins[0], m, k);
    ProductOfTwo(m, n);
    GemmExact(out.data, ins[0].data, ins[1].data, ins[2].data, m, k, n);
  }

  /** The two products of a block: an accepted opening holds the product of the tensors it provides. */
  lemma GemmSegmentRuns(hash: Hash, job: Job, l: nat, c: nat, o: Opening, cm: Commitment)
    requires ValidJob(job) && l < |job.blocks| && (c == 0 || c == 2)
    requires CheckOpening(hash, Ideal, job, BlockSpec(job, l, c), o, cm, BlockKernel(job, l, c)) == Accepted
    ensures 4 * l + c in o.tensors
      && o.tensors[4 * l + c] == Run(BlockKernel(job, l, c), ReadAll(job, o, BlockSpec(job, l, c).inputs))
  {
    AcceptedOpening(hash, Ideal, job, BlockSpec(job, l, c), o, cm, BlockKernel(job, l, c));
    GemmInputs(job, l, o);
    BlockFacts(job, l);
    var (kk, n) := if c == 0 then (job.d, job.h) else (job.h, job.d);
    PassedGemm(BlockKernel(job, l, c), ReadAll(job, o, BlockSpec(job, l, c).inputs), o.tensors[4 * l + c], job.b, kk,
      n);
  }

  lemma ElementwiseRuns(hash: Hash, job: Job, spec: Spec, o: Opening, cm: Commitment, kernel: Kernel, ts: set<Tensor>)
    requires !spec.kind.GemmKind? && CheckOpening(hash, Ideal, job, spec, o, cm, kernel) == Accepted
    requires NoCollision(hash, ts) && Run(kernel, ReadAll(job, o, spec.inputs)) in ts
    requires spec.idx in o.tensors ==> o.tensors[spec.idx] in ts
    ensures spec.idx in o.tensors && o.tensors[spec.idx] == Run(kernel, ReadAll(job, o, spec.inputs))
  {
    AcceptedOpening(hash, Ideal, job, spec, o, cm, kernel);
    SameHashSameTensor(hash, ts, o.tensors[spec.idx], Run(kernel, ReadAll(job, o, spec.inputs)));
  }

  /** What segment `i` computes from the tensors its opening provides. */
  function Recomputed(job: Job, i: nat, o: Opening): Tensor {
    var spec := SpecAt(job, i);
    var k := KernelOf(job, spec.op);
    if k.Some? then Run(k.value, ReadAll(job, o, spec.inputs)) else Tensor(I8, [], [])
  }

  lemma SegmentRuns(
      hash: Hash, job: Job, l: nat, c: nat, spec: Spec, kernel: Kernel, o: Opening, cm: Commitment, ts: set<Tensor>)
    requires ValidJob(job) && l < |job.blocks| && c < 4 && spec == BlockSpec(job, l, c)
      && kernel == BlockKernel(job, l, c)
    requires CheckOpening(hash, Ideal, job, spec, o, cm, kernel) == Accepted
    requires NoCollision(hash, ts) && (spec.idx in o.tensors ==> o.tensors[spec.idx] in ts)
      && Run(kernel, ReadAll(job, o, spec.inputs)) in ts
    ensures spec.idx in o.tensors && o.tensors[spec.idx] == Run(kernel, ReadAll(job, o, spec.inputs))
  {
    if spec.kind.GemmKind? { GemmSegmentRuns(hash, job, l, c, o, cm); }
    else { ElementwiseRuns(hash, job, spec, o, cm, kernel, ts); }
  }

  /** The tensor opened for segment `i` is what its kernel computes from the tensors opened beside it. */
  lemma PassedRuns(hash: Hash, job: Job, i: nat, o: Opening, cm: Commitment, ts: set<Tensor>)
    requires ValidJob(job) && i < 4 * |job.blocks| && Passes(hash, Ideal, job, i, o, cm)
    requires NoCollision(hash, ts) && (i in o.tensors ==> o.tensors[i] in ts) && Recomputed(job, i, o) in ts
    ensures i in o.tensors && o.tensors[i] == Recomputed(job, i, o)
  {
    SegmentOf(job, i / 4, i % 4);
    IdxIsPosition(job, i);
    SegmentRuns(hash, job, i / 4, i % 4, SpecAt(job, i), KernelOf(job, SpecAt(job, i).op).value, o, cm, ts);
  }

  /** The tensors named by a set of openings: served, recomputed, and the submitted result. */
  ghost predicate Names(ts: set<Tensor>, job: Job, os: seq<Opening>, result: Tensor) {
    && result in ts
    && AllIn(os, ts)
    && (forall i {:trigger Recomputed(job, i, os[i])} :: 0 <= i < |os| ==> Recomputed(job, i, os[i]) in ts)
  }

  ghost predicate AllIn(os: seq<Opening>, ts: set<Tensor>) {
    forall i, j :: 0 <= i < |os| && j in os[i].tensors ==> os[i].tensors[j] in ts
  }

  ghost predicate AllHold(hash: Hash, os: seq<Opening>, cm: Commitment) {
    forall i {:trigger Holds(hash, os[i], cm, i)} :: 0 <= i < |os| ==> Holds(hash, os[i], cm, i)
  }

  /** The output each opening holds for its own segment. */
  function Own(os: seq<Opening>): seq<Tensor> {
    seq(|os|, i requires 0 <= i < |os| => if i in os[i].tensors then os[i].tensors[i] else Tensor(I8, [], []))
  }

  /** An opening's tensors for earlier segments are those segments' own outputs. */
  lemma ReadsOwn(hash: Hash, os: seq<Opening>, cm: Commitment, ts: set<Tensor>, i: nat, j: nat)
    requires i < |os| && j < |os| && NoCollision(hash, ts) && AllIn(os, ts) && AllHold(hash, os, cm)
      && Holds(hash, os[i], cm, j)
    ensures os[i].tensors[j] == Own(os)[j]
  {
    assert Holds(hash, os[j], cm, j);
    SameHashSameTensor(hash, ts, os[i].tensors[j], os[j].tensors[j]);
  }

  lemma ReadsAreOwn(hash: Hash, job: Job, inputs: seq<Ref>, os: seq<Opening>, cm: Commitment, ts: set<Tensor>, i: nat)
    requires i < |os| && NoCollision(hash, ts) && AllIn(os, ts) && AllHold(hash, os, cm)
    requires forall k :: 0 <= k < |inputs| && inputs[k].Seg? ==> inputs[k].j < i && Holds(hash, os[i], cm, inputs[k].j)
    ensures ReadAll(job, os[i], inputs) == Args(job, inputs, Own(os)[..i])
  {
    forall k | 0 <= k < |inputs| ensures Read(job, os[i], inputs[k]) == Arg(job, inputs[k], Own(os)[..i]) {
      if inputs[k].Seg? { ReadsOwn(hash, os, cm, ts, i, inputs[k].j); }
    }
  }

  /** One step along the plan: an accepted opening continues the run of the outputs opened before it. */
  lemma HonestStep(hash: Hash, job: Job, os: seq<Opening>, cm: Commitment, ts: set<Tensor>, i: nat)
    requires ValidJob(job) && i < |os| <= 4 * |job.blocks| && Passes(hash, Ideal, job, i, os[i], cm)
    requires NoCollision(hash, ts) && AllIn(os, ts) && AllHold(hash, os, cm) && Recomputed(job, i, os[i]) in ts
    ensures Own(os)[i] == RunSpec(job, SpecAt(job, i), Own(os)[..i])
  {
    PassedHolds(hash, Ideal, job, i, os[i], cm);
    PassedRuns(hash, job, i, os[i], cm, ts);
    var inputs := SpecAt(job, i).inputs;
    forall k | 0 <= k < |inputs| && inputs[k].Seg? ensures inputs[k].j < i && Holds(hash, os[i], cm, inputs[k].j) {
      RefsAreEarlier(job, i, k);
    }
    ReadsAreOwn(hash, job, inputs, os, cm, ts, i);
  }

  /** Two runs of the same plan are equal. */
  lemma RunIsInterp(job: Job, outs: seq<Tensor>, n: nat)
    requires n <= |outs| && forall i :: 0 <= i < n ==> ContinuesRun(job, outs, i)
    ensures outs[..n] == Interp(job, n)
  {
    forall i | 0 <= i < n ensures outs[i] == Segments(job)(i, outs[..i]) { assert ContinuesRun(job, outs, i); }
    StepsUnique(Segments(job), outs, n);
  }

  ghost predicate ContinuesRun(job: Job, outs: seq<Tensor>, i: nat) {
    i < |outs| && outs[i] == RunSpec(job, SpecAt(job, i), outs[..i])
  }

  lemma PassesHold(hash: Hash, gc: GemmCheck, job: Job, os: seq<Opening>, cm: Commitment)
    requires forall i {:trigger Passes(hash, gc, job, i, os[i], cm)} :: 0 <= i < |os| ==>
      Passes(hash, gc, job, i, os[i], cm)
    ensures AllHold(hash, os, cm)
  {
    forall i | 0 <= i < |os| ensures Holds(hash, os[i], cm, i) {
      assert Passes(hash, gc, job, i, os[i], cm);
      PassedHolds(hash, gc, job, i, os[i], cm);
    }
  }

  /** What was opened, segment by segment, is what an honest run computes. */
  lemma OpenedIsHonest(hash: Hash, job: Job, os: seq<Opening>, cm: Commitment, result: Tensor, ts: set<Tensor>)
    requires ValidJob(job) && |os| == 4 * |job.blocks| && NoCollision(hash, ts) && Names(ts, job, os, result)
    requires forall i {:trigger Passes(hash, Ideal, job, i, os[i], cm)} :: 0 <= i < |os| ==>
      Passes(hash, Ideal, job, i, os[i], cm)
    ensures AllHold(hash, os, cm) && Own(os) == Interp(job, |os|)
  {
    PassesHold(hash, Ideal, job, os, cm);
    forall i | 0 <= i < |os| ensures ContinuesRun(job, Own(os), i) {
      assert Passes(hash, Ideal, job, i, os[i], cm) && Recomputed(job, i, os[i]) in ts;
      HonestStep(hash, job, os, cm, ts, i);
    }
    RunIsInterp(job, Own(os), |os|);
    assert Own(os)[..|os|] == Own(os);
  }

  lemma RefsAreEarlier(job: Job, i: nat, k: nat)
    requires k < |SpecAt(job, i).inputs| && SpecAt(job, i).inputs[k].Seg?
    ensures SpecAt(job, i).inputs[k].j < i
  {
  }

  /** The honest result: the last segment's output. */
  function HonestResult(job: Job): Tensor
    requires |job.blocks| > 0
  {
    Interp(job, 4 * |job.blocks|)[4 * |job.blocks| - 1]
  }

  function ResultSig(job: Job): Sig { Sig(I8, [job.b, job.d]) }

  /**
   If the bind check accepts a result and every segment of the plan has an opening that passes,
   then the result is the honest one, unless two of the tensors named have the same hash.
   */
  lemma AcceptedRunIsHonest(
      hash: Hash, sigma: string, inHash: string, job: Job, cm: Commitment, result: Tensor, os: seq<Opening>,
      ts: set<Tensor>)
    requires ValidJob(job) && |os| == 4 * |job.blocks|
    requires CheckCommitment(hash, sigma, inHash, Plan(job), cm, result, ResultSig(job)) == Accepted
    requires forall i {:trigger Passes(hash, Ideal, job, i, os[i], cm)} :: 0 <= i < |os| ==>
      Passes(hash, Ideal, job, i, os[i], cm)
    requires Names(ts, job, os, result) && NoCollision(hash, ts)
    ensures result == HonestResult(job)
  {
    ResultBound(hash, sigma, inHash, Plan(job), cm, result, ResultSig(job));
    BoundRunIsHonest(hash, job, cm, result, os, ts);
  }

  lemma BoundRunIsHonest(hash: Hash, job: Job, cm: Commitment, result: Tensor, os: seq<Opening>, ts: set<Tensor>)
    requires ValidJob(job) && |os| == 4 * |job.blocks| && ResultIsLast(hash, |os|, cm, result)
    requires forall i {:trigger Passes(hash, Ideal, job, i, os[i], cm)} :: 0 <= i < |os| ==>
      Passes(hash, Ideal, job, i, os[i], cm)
    requires Names(ts, job, os, result) && NoCollision(hash, ts)
    ensures result == HonestResult(job)
  {
    OpenedIsHonest(hash, job, os, cm, result, ts);
    LastIsResult(hash, os, cm, result, ts);
  }

  /** The result has the hash committed for the last of `n` segments. */
  predicate ResultIsLast(hash: Hash, n: nat, cm: Commitment, result: Tensor) {
    |cm.segments| == n > 0 && ValidTensor(result) && TensorHash(hash, result) == cm.segments[n - 1].outHash
  }

  lemma LastIsResult(hash: Hash, os: seq<Opening>, cm: Commitment, result: Tensor, ts: set<Tensor>)
    requires |os| > 0 && NoCollision(hash, ts) && AllIn(os, ts) && result in ts && AllHold(hash, os, cm)
    requires ResultIsLast(hash, |os|, cm, result)
    ensures result == Own(os)[|os| - 1]
  {
    var last := |os| - 1;
    assert Holds(hash, os[last], cm, last);
    SameHashSameTensor(hash, ts, result, os[last].tensors[last]);
  }

  /** An accepted commitment binds the result to the last segment's hash. */
  lemma ResultBound(
      hash: Hash, sigma: string, inHash: string, plan: seq<Spec>, cm: Commitment, result: Tensor, sig: Sig)
    requires CheckCommitment(hash, sigma, inHash, plan, cm, result, sig) == Accepted
    ensures ResultIsLast(hash, |plan|, cm, result)
  {
  }
}
