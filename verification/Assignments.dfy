/**
 What a commitment stands for: the assignment it was made for (shared/verification.ts). The bind check accepts it for
 one sigma, one plan and one set of input tensors only, unless two of the texts or tensors hashed on the way collide.
 */
module Assignments {
  import opened Wrappers
  import opened Text
  import opened Tensors
  import opened Int8Work
  import opened CommitOpen
  import opened InputHash
  import opened HashedTexts
  import Chain

  /** `inputs` holds exactly the job's input tensors, under their names. */
  ghost predicate RecordOf(job: Job, inputs: map<string, Tensor>) {
    && (forall n {:trigger JobInput(job, n)} :: JobInput(job, n).Some? ==> Recorded(inputs, n, JobInput(job, n).value))
    && forall x :: x in inputs ==> IsJobName(job, x)
  }

  ghost predicate Recorded(inputs: map<string, Tensor>, n: Name, t: Tensor) {
    Chain.NameText(n) in inputs && inputs[Chain.NameText(n)] == t
  }

  ghost predicate IsJobName(job: Job, x: string) { exists n :: JobInput(job, n).Some? && Chain.NameText(n) == x }

  lemma RecordIsPlain(job: Job, keys: seq<string>, inputs: map<string, Tensor>)
    requires RecordOf(job, inputs) && KeysOf(keys, inputs)
    ensures PlainNames(keys)
  {
    forall x | x in keys ensures Free(x, '\n') {
      assert IsJobName(job, x);
      var n :| JobInput(job, n).Some? && Chain.NameText(n) == x;
      JobNamesPlain(n);
    }
  }

  /** A record determines the job's input tensors. */
  lemma SameRecord(job: Job, job': Job, inputs: map<string, Tensor>, n: Name)
    requires RecordOf(job, inputs) && RecordOf(job', inputs)
    ensures JobInput(job, n) == JobInput(job', n)
  {
    if JobInput(job, n).Some? { NamedInBoth(job, job', inputs, n); }
    if JobInput(job', n).Some? { NamedInBoth(job', job, inputs, n); }
  }

  lemma NamedInBoth(job: Job, job': Job, inputs: map<string, Tensor>, n: Name)
    requires RecordOf(job, inputs) && RecordOf(job', inputs) && JobInput(job, n).Some?
    ensures JobInput(job', n) == JobInput(job, n)
  {
    assert Recorded(inputs, n, JobInput(job, n).value);
    assert IsJobName(job', Chain.NameText(n));
    var m :| JobInput(job', m).Some? && Chain.NameText(m) == Chain.NameText(n);
    Chain.NameTextInjective(m, n);
    assert Recorded(inputs, n, JobInput(job', n).value);
  }

  // ---- The record a job's inputs make ----

  ghost function JobNames(job: Job): set<Name> {
    {Name(NX, None)} + set l, b | 0 <= l < |job.blocks| && b in {NW1, Nb1, NW2, Nb2, Nq, Nlut} :: Name(b, Tag(job, l))
  }

  /** `int8MlpInputs` and `int8ModelInputs`: every input tensor under its name. */
  ghost function JobRecord(job: Job): map<string, Tensor> {
    map x | x in NameTexts(job) :: JobInput(job, Named(job, x)).value
  }

  ghost function NameTexts(job: Job): set<string> {
    set n | n in JobNames(job) && JobInput(job, n).Some? :: Chain.NameText(n)
  }

  ghost function Named(job: Job, x: string): (n: Name)
    requires x in NameTexts(job)
    ensures JobInput(job, n).Some? && Chain.NameText(n) == x
  {
    var n :| n in JobNames(job) && JobInput(job, n).Some? && Chain.NameText(n) == x;
    n
  }

  lemma NameIsListed(job: Job, n: Name)
    requires JobInput(job, n).Some?
    ensures n in JobNames(job)
  {
    if n != Name(NX, None) {
      var l := if n.block.Some? then n.block.value else 0;
      assert n == Name(n.base, Tag(job, l));
    }
  }

  lemma JobRecordIs(job: Job)
    ensures RecordOf(job, JobRecord(job))
  {
    forall n | JobInput(job, n).Some? ensures Recorded(JobRecord(job), n, JobInput(job, n).value) {
      NameIsListed(job, n);
      Chain.NameTextInjective(Named(job, Chain.NameText(n)), n);
    }
    forall x | x in JobRecord(job) ensures IsJobName(job, x) { assert JobInput(job, Named(job, x)).Some?; }
  }

  lemma InputsValid(job: Job, n: Name)
    requires ValidJob(job) && JobInput(job, n).Some?
    ensures ValidTensor(JobInput(job, n).value)
  {
    var l := if n.block.Some? then n.block.value else 0;
    if n == Name(NX, None) {
      JobInputsGood(job, 0);
    } else {
      JobInputsGood(job, l);
      assert ValidBlock(job.d, job.h, job.blocks[l]);
      LutWithin(job.blocks[l]);
    }
  }

  lemma JobRecordValid(job: Job)
    requires ValidJob(job)
    ensures Inputs(JobRecord(job))
  {
    forall x | x in JobRecord(job) ensures ValidTensor(JobRecord(job)[x]) { InputsValid(job, Named(job, x)); }
  }

  // ---- The record, name by name ----

  /** The tensor a job's record holds under `x`. */
  ghost predicate Holds(job: Job, x: string, t: Tensor) { x in JobRecord(job) && JobRecord(job)[x] == t }

  lemma HoldsInput(job: Job, n: Name, x: string, t: Tensor)
    requires Chain.NameText(n) == x && JobInput(job, n) == Some(t)
    ensures Holds(job, x, t)
  {
    JobRecordIs(job);
    assert Recorded(JobRecord(job), n, t);
  }

  lemma NameTextIs(job: Job, l: nat, b: NameBase, base: string)
    requires base == Chain.NameBaseText(b)
    ensures Chain.NameText(Name(b, Tag(job, l))) == base + NameTag(job, l)
  {
  }

  /** Tables left out are the default, `max(v, 0)` at `v + 128`. */
  function TableOf(k: Block): seq<int> {
    if k.lut.Some? then k.lut.value else seq(256, i => if i < 128 then 0 else i - 128)
  }

  lemma TableIs(k: Block)
    ensures LutOf(k) == TableOf(k)
  {
    assert forall i :: 0 <= i < 256 ==> ReluLut()[i] == if i < 128 then 0 else i - 128;
  }

  /** The first layer's tensors, under names that end in `n`; the second layer's; the scales and the table. */
  ghost predicate FirstHeld(job: Job, k: Block, n: string) {
    Holds(job, "W1" + n, Tensor(I8, [job.d, job.h], k.w1)) && Holds(job, "b1" + n, Tensor(I32, [job.h], k.b1))
  }

  ghost predicate SecondHeld(job: Job, k: Block, n: string) {
    Holds(job, "W2" + n, Tensor(I8, [job.h, job.d], k.w2)) && Holds(job, "b2" + n, Tensor(I32, [job.d], k.b2))
  }

  ghost predicate ScalesHeld(job: Job, k: Block, n: string) {
    && Holds(job, "q" + n, Tensor(I32, [4], [k.m1, k.s1, k.m2, k.s2]))
    && Holds(job, "lut" + n, Tensor(I8, [256], TableOf(k)))
  }

  lemma FirstIsHeld(job: Job, l: nat, k: Block)
    requires ValidJob(job) && l < |job.blocks| && k == job.blocks[l]
    ensures FirstHeld(job, k, NameTag(job, l))
  {
    WeightHeld(job, l, NW1, "W1", Tensor(I8, [job.d, job.h], k.w1));
    WeightHeld(job, l, Nb1, "b1", Tensor(I32, [job.h], k.b1));
  }

  lemma SecondIsHeld(job: Job, l: nat, k: Block)
    requires ValidJob(job) && l < |job.blocks| && k == job.blocks[l]
    ensures SecondHeld(job, k, NameTag(job, l))
  {
    WeightHeld(job, l, NW2, "W2", Tensor(I8, [job.h, job.d], k.w2));
    WeightHeld(job, l, Nb2, "b2", Tensor(I32, [job.d], k.b2));
  }

  lemma TableIsHeld(job: Job, l: nat, k: Block, t: Tensor)
    requires ValidJob(job) && l < |job.blocks| && k == job.blocks[l] && t == Tensor(I8, [256], TableOf(k))
    ensures Holds(job, "lut" + NameTag(job, l), t)
  {
    TableIs(k);
    WeightHeld(job, l, Nlut, "lut", t);
  }

  lemma ScalesAreHeld(job: Job, l: nat, k: Block)
    requires ValidJob(job) && l < |job.blocks| && k == job.blocks[l]
    ensures ScalesHeld(job, k, NameTag(job, l))
  {
    WeightHeld(job, l, Nq, "q", Tensor(I32, [4], [k.m1, k.s1, k.m2, k.s2]));
    TableIsHeld(job, l, k, Tensor(I8, [256], TableOf(k)));
  }

  /** Every name of a block, and its tensor: what the input hash binds of a job. */
  lemma RecordWrittenOut(job: Job, l: nat)
    requires ValidJob(job) && l < |job.blocks|
    ensures Holds(job, "X", Tensor(I8, [job.b, job.d], job.x))
    ensures var k, n := job.blocks[l], NameTag(job, l);
      FirstHeld(job, k, n) && SecondHeld(job, k, n) && ScalesHeld(job, k, n)
  {
    HoldsInput(job, Name(NX, None), "X", Tensor(I8, [job.b, job.d], job.x));
    FirstIsHeld(job, l, job.blocks[l]);
    SecondIsHeld(job, l, job.blocks[l]);
    ScalesAreHeld(job, l, job.blocks[l]);
  }

  lemma WeightHeld(job: Job, l: nat, b: NameBase, base: string, t: Tensor)
    requires ValidJob(job) && l < |job.blocks| && base == Chain.NameBaseText(b)
    requires JobInput(job, Name(b, Tag(job, l))) == Some(t)
    ensures Holds(job, base + NameTag(job, l), t)
  {
    NameTextIs(job, l, b, base);
    HoldsInput(job, Name(b, Tag(job, l)), base + NameTag(job, l), t);
  }

  /** The names of a block. */
  function BlockNames(job: Job, l: nat): set<string> {
    var n := NameTag(job, l);
    {"W1" + n, "b1" + n, "W2" + n, "b2" + n, "q" + n, "lut" + n}
  }

  /** The record has no other names. */
  lemma NothingElseRecorded(job: Job, x: string)
    requires ValidJob(job) && x in JobRecord(job) && x != "X"
    ensures exists l: nat :: l < |job.blocks| && x in BlockNames(job, l)
  {
    var n := Named(job, x);
    var l := if n.block.Some? then n.block.value else 0;
    assert n.block == Tag(job, l);
    NameTextIs(job, l, n.base, Chain.NameBaseText(n.base));
    assert x in BlockNames(job, l);
  }

  lemma AcceptedRoot(
      hash: Hash, sigma: string, inHash: string, plan: seq<Spec>, c: Commitment, result: Tensor, sig: Sig)
    requires CheckCommitment(hash, sigma, inHash, plan, c, result, sig) == Accepted
    ensures c.inputHash == inHash && |plan| == |OutHashes(c)|
    ensures c.chainRoot == Chain.Root(hash, sigma, inHash, plan, OutHashes(c))
  {
  }

  /** What `inputHash` hashes for a job whose record lists its names in the order `keys`. */
  ghost function JobText(hash: Hash, job: Job, keys: seq<string>): string
    requires ValidJob(job) && KeysOf(keys, JobRecord(job))
  {
    JobRecordValid(job);
    InputText(hash, keys, JobRecord(job))
  }

  /** The commitment is accepted for sigma and the job, against the hash of the job's own inputs. */
  ghost predicate AcceptedFor(hash: Hash, c: Commitment, sigma: string, job: Job, keys: seq<string>, result: Tensor) {
    && ValidJob(job) && KeysOf(keys, JobRecord(job))
    && CheckCommitment(hash, sigma, hash(JobText(hash, job, keys)), Plan(job), c, result, ResultSig(job)) == Accepted
  }

  /** No two different things hashed for the two assignments share a digest. */
  ghost predicate NothingCollides(
      hash: Hash, c: Commitment, sigma: string, sigma': string, job: Job, job': Job, keys: seq<string>,
        keys': seq<string>)
    requires ValidJob(job) && KeysOf(keys, JobRecord(job)) && ValidJob(job') && KeysOf(keys', JobRecord(job'))
    requires |Plan(job)| == |Plan(job')| == |OutHashes(c)|
  {
    && Chain.NoCollision(hash, Chain.Queries(hash, sigma, c.inputHash, Plan(job), OutHashes(c)),
         Chain.Queries(hash, sigma', c.inputHash, Plan(job'), OutHashes(c)))
    && CollisionFree(hash, {JobText(hash, job, keys), JobText(hash, job', keys')})
    && NoCollision(hash, JobRecord(job).Values + JobRecord(job').Values)
  }

  lemma AcceptedLengths(hash: Hash, c: Commitment, sigma: string, job: Job, keys: seq<string>, result: Tensor)
    requires AcceptedFor(hash, c, sigma, job, keys, result)
    ensures |Plan(job)| == |OutHashes(c)|
  {
  }

  /**
   One commitment accepted for two assignments, whatever results came with it: they have the same sigma, the same plan
   and the same input tensors, unless two of the things hashed for them collide.
   */
  lemma CommitmentBinds(
      hash: Hash, c: Commitment, sigma: string, sigma': string, job: Job, job': Job, keys: seq<string>,
      keys': seq<string>, result: Tensor, result': Tensor)
    requires forall q :: IsHash(hash(q))
    requires AcceptedFor(hash, c, sigma, job, keys, result) && AcceptedFor(hash, c, sigma', job', keys', result')
    ensures |Plan(job)| == |Plan(job')| == |OutHashes(c)|
    ensures NothingCollides(hash, c, sigma, sigma', job, job', keys, keys') ==>
      sigma == sigma' && Plan(job) == Plan(job') && forall n :: JobInput(job, n) == JobInput(job', n)
  {
    AcceptedLengths(hash, c, sigma, job, keys, result);
    AcceptedLengths(hash, c, sigma', job', keys', result');
    if NothingCollides(hash, c, sigma, sigma', job, job', keys, keys') {
      AcceptedRoot(hash, sigma, hash(JobText(hash, job, keys)), Plan(job), c, result, ResultSig(job));
      AcceptedRoot(hash, sigma', hash(JobText(hash, job', keys')), Plan(job'), c, result', ResultSig(job'));
      Chain.RootBinds(hash, sigma, sigma', c.inputHash, c.inputHash, Plan(job), Plan(job'), OutHashes(c), OutHashes(c));
      InputsBind(hash, job, job', keys, keys');
    }
  }

  lemma InputsBind(hash: Hash, job: Job, job': Job, keys: seq<string>, keys': seq<string>)
    requires forall q :: IsHash(hash(q))
    requires ValidJob(job) && KeysOf(keys, JobRecord(job)) && ValidJob(job') && KeysOf(keys', JobRecord(job'))
    requires CollisionFree(hash, {JobText(hash, job, keys), JobText(hash, job', keys')})
    requires NoCollision(hash, JobRecord(job).Values + JobRecord(job').Values)
    requires hash(JobText(hash, job, keys)) == hash(JobText(hash, job', keys'))
    ensures forall n :: JobInput(job, n) == JobInput(job', n)
  {
    JobRecordIs(job);
    JobRecordIs(job');
    JobRecordValid(job);
    JobRecordValid(job');
    RecordIsPlain(job, keys, JobRecord(job));
    RecordIsPlain(job', keys', JobRecord(job'));
    InputHashBinds(hash, keys, keys', JobRecord(job), JobRecord(job'));
    forall n ensures JobInput(job, n) == JobInput(job', n) { SameRecord(job, job', JobRecord(job), n); }
  }
}
