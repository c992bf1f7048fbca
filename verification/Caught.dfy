/**
 What a wrong result costs a node (shared/verification.ts): some segment of the plan has no opening that satisfies the
 ideal check, and with random vectors every opening of it passes for only a vanishing fraction of the choices. Nothing
 is assumed of the hash: the way out is always a collision that the openings exhibit.
 */
module Caught {
  import opened Field
  import opened Counting
  import opened FreivaldsSound
  import opened Wrappers
  import opened Tensors
  import opened Int8Work
  import opened CommitOpen

  /** Some opening of segment `i` satisfies the ideal check. */
  ghost predicate Openable(hash: Hash, job: Job, i: nat, cm: Commitment) {
    exists o :: Passes(hash, Ideal, job, i, o, cm)
  }

  /** Every opening satisfies the ideal check of its segment. */
  ghost predicate AllOpeningsPass(hash: Hash, job: Job, cm: Commitment, os: seq<Opening>) {
    forall i {:trigger Passes(hash, Ideal, job, i, os[i], cm)} :: 0 <= i < |os| ==>
      Passes(hash, Ideal, job, i, os[i], cm)
  }

  ghost predicate HasChoice<T(!new)>(ok: (nat, T) -> bool, i: nat) { exists x :: ok(i, x) }

  /** One choice for each index, where each index has one. */
  lemma {:induction false} Choose<T(!new)>(ok: (nat, T) -> bool, n: nat) returns (xs: seq<T>)
    requires forall i: nat :: i < n ==> HasChoice(ok, i)
    ensures |xs| == n && forall i: nat :: i < n ==> ok(i, xs[i])
  {
    if n == 0 {
      xs := [];
    } else {
      var rest := Choose(ok, n - 1);
      assert HasChoice(ok, n - 1);
      var x :| ok(n - 1, x);
      xs := rest + [x];
    }
  }

  /** One passing opening for each of the first `n` segments. */
  lemma ChooseOpenings(hash: Hash, job: Job, cm: Commitment, n: nat) returns (os: seq<Opening>)
    requires forall i :: 0 <= i < n ==> Openable(hash, job, i, cm)
    ensures |os| == n && AllOpeningsPass(hash, job, cm, os)
  {
    var ok := (i: nat, o: Opening) => Passes(hash, Ideal, job, i, o, cm);
    forall i: nat | i < n ensures HasChoice(ok, i) {
      assert Openable(hash, job, i, cm);
      var o :| Passes(hash, Ideal, job, i, o, cm);
      assert ok(i, o);
    }
    os := Choose(ok, n);
    forall i | 0 <= i < n ensures Passes(hash, Ideal, job, i, os[i], cm) { assert ok(i, os[i]); }
  }

  /** The tensors that a set of openings names: served, recomputed, and the submitted result. */
  ghost function Named(job: Job, os: seq<Opening>, result: Tensor): set<Tensor> {
    (set i, j | 0 <= i < |os| && j in os[i].tensors :: os[i].tensors[j])
    + Image((i: nat) => if i < |os| then Recomputed(job, i, os[i]) else result, |os|) + {result}
  }

  lemma NamedNames(job: Job, os: seq<Opening>, result: Tensor)
    ensures Names(Named(job, os, result), job, os, result)
  {
    var redo := (i: nat) => if i < |os| then Recomputed(job, i, os[i]) else result;
    forall i: nat | i < |os| ensures Recomputed(job, i, os[i]) in Named(job, os, result) { ImageIn(redo, |os|, i); }
  }

  /** Openings that all satisfy the ideal check, and name two different tensors with the same hash. */
  ghost predicate Collides(hash: Hash, job: Job, cm: Commitment, result: Tensor, os: seq<Opening>) {
    && |os| == 4 * |job.blocks| && !NoCollision(hash, Named(job, os, result))
    && AllOpeningsPass(hash, job, cm, os)
  }

  ghost function Image(f: nat -> Tensor, n: nat): set<Tensor> { if n == 0 then {} else Image(f, n - 1) + {f(n - 1)} }

  lemma {:induction false} ImageIn(f: nat -> Tensor, n: nat, i: nat)
    requires i < n
    ensures f(i) in Image(f, n)
  {
    if i < n - 1 { ImageIn(f, n - 1, i); }
  }

  /**
   If the bind check accepts a result other than the honest one, then some segment of the plan has no opening at all
   that satisfies the ideal check, or openings of all segments do and exhibit a collision of the hash.
   */
  lemma WrongResultHasDeadSegment(hash: Hash, sigma: string, inHash: string, job: Job, cm: Commitment, result: Tensor)
    requires ValidJob(job) && result != HonestResult(job)
    requires CheckCommitment(hash, sigma, inHash, Plan(job), cm, result, ResultSig(job)) == Accepted
    ensures (exists i :: 0 <= i < 4 * |job.blocks| && !Openable(hash, job, i, cm))
      || exists os :: Collides(hash, job, cm, result, os)
  {
    ResultBound(hash, sigma, inHash, Plan(job), cm, result, ResultSig(job));
    DeadSegment(hash, job, cm, result);
  }

  lemma DeadSegment(hash: Hash, job: Job, cm: Commitment, result: Tensor)
    requires ValidJob(job) && ResultIsLast(hash, 4 * |job.blocks|, cm, result) && result != HonestResult(job)
    ensures (exists i :: 0 <= i < 4 * |job.blocks| && !Openable(hash, job, i, cm))
      || exists os :: Collides(hash, job, cm, result, os)
  {
    if forall i :: 0 <= i < 4 * |job.blocks| ==> Openable(hash, job, i, cm) {
      var os := ChooseOpenings(hash, job, cm, 4 * |job.blocks|);
      PassingCollides(hash, job, cm, result, os);
    }
  }

  /** Openings of a wrong result that all satisfy the ideal check exhibit a collision. */
  lemma PassingCollides(hash: Hash, job: Job, cm: Commitment, result: Tensor, os: seq<Opening>)
    requires ValidJob(job) && ResultIsLast(hash, 4 * |job.blocks|, cm, result) && result != HonestResult(job)
      && |os| == 4 * |job.blocks|
    requires AllOpeningsPass(hash, job, cm, os)
    ensures Collides(hash, job, cm, result, os)
  {
    NamedNames(job, os, result);
    if NoCollision(hash, Named(job, os, result)) {
      BoundRunIsHonest(hash, job, cm, result, os, Named(job, os, result));
    }
  }

  /** Columns of the product a segment computes. */
  function Cols(job: Job, i: nat): nat { if i % 4 == 0 then NatOf(job.h) else NatOf(job.d) }

  function NatOf(x: int): nat { if x < 0 then 0 else x }

  /** The choices of `rounds` random vectors with which an opening passes a segment with `n` columns. */
  ghost function PassingSet(
      hash: Hash, job: Job, spec: Spec, kernel: Kernel, o: Opening, cm: Commitment, n: nat, rounds: nat)
      : set<seq<seq<int>>>
  {
    set rs | rs in Tuples(Vectors(n), rounds)
      && CheckOpening(hash, WithVectors(rs), job, spec, o, cm, kernel) == Accepted
  }

  /** The choices of `rounds` random vectors with which an opening of segment `i` passes. */
  ghost function PassingVectors(
      hash: Hash, job: Job, i: nat, o: Opening, cm: Commitment, rounds: nat): set<seq<seq<int>>>
  {
    var kernel := KernelOf(job, SpecAt(job, i).op);
    if kernel.None? then {} else PassingSet(hash, job, SpecAt(job, i), kernel.value, o, cm, Cols(job, i), rounds)
  }

  /** The random vectors matter only in the last step of a product's check. */
  lemma VectorsMatterForProducts(
      hash: Hash, gc: GemmCheck, gc': GemmCheck, job: Job, spec: Spec, o: Opening, cm: Commitment, kernel: Kernel)
    requires CheckOpening(hash, gc, job, spec, o, cm, kernel) == Accepted
      && CheckOpening(hash, gc', job, spec, o, cm, kernel) != Accepted
    ensures spec.kind.GemmKind? && kernel.act.GemmAct? && spec.idx in o.tensors && |spec.inputs| == 3
    ensures var ins := ReadAll(job, o, spec.inputs);
      var c := Unbias(o.tensors[spec.idx].data, ins[2].data, kernel.act.m, kernel.act.n);
      && ProductOk(gc, ins[0].data, ins[1].data, c, kernel.act.m, kernel.act.k, kernel.act.n)
      && !ProductOk(gc', ins[0].data, ins[1].data, c, kernel.act.m, kernel.act.k, kernel.act.n)
  {
  }

  lemma RunsCard(n: nat, rounds: nat)
    ensures |Tuples(Vectors(n), rounds)| == Pow(Pow(P, n), rounds)
  {
    VectorsCard(n);
    TuplesCard(Vectors(n), rounds);
  }

  lemma KernelCols(job: Job, i: nat)
    requires ValidJob(job) && i < 4 * |job.blocks|
    ensures var k := KernelOf(job, SpecAt(job, i).op);
      k.Some? && Cols(job, i) >= 1 && (k.value.act.GemmAct? ==> k.value.act.n == Cols(job, i))
  {
    SegmentOf(job, i / 4, i % 4);
  }

  lemma FewPass(hash: Hash, job: Job, spec: Spec, kernel: Kernel, o: Opening, cm: Commitment, n: nat, rounds: nat)
    requires IsPrime(P) && n >= 1 && (kernel.act.GemmAct? ==> kernel.act.n == n)
    requires CheckOpening(hash, Ideal, job, spec, o, cm, kernel) != Accepted
    ensures |PassingSet(hash, job, spec, kernel, o, cm, n, rounds)| <= Pow(Pow(P, n - 1), rounds)
  {
    var passing := PassingSet(hash, job, spec, kernel, o, cm, n, rounds);
    if passing != {} {
      var rs0 :| rs0 in passing;
      VectorsMatterForProducts(hash, WithVectors(rs0), Ideal, job, spec, o, cm, kernel);
      var ins := ReadAll(job, o, spec.inputs);
      var (a, b, c) := (ins[0].data, ins[1].data, Unbias(o.tensors[spec.idx].data, ins[2].data, kernel.act.m, n));
      var runs := AcceptingRuns(a, b, c, kernel.act.m, kernel.act.k, n, rounds);
      forall rs | rs in passing ensures rs in runs {
        VectorsMatterForProducts(hash, WithVectors(rs), Ideal, job, spec, o, cm, kernel);
      }
      Sound(a, b, c, kernel.act.m, kernel.act.k, n, rounds);
      SubsetCard(passing, runs);
    }
  }

  /** An opening that fails the ideal check passes with few choices of the random vectors. */
  lemma FewVectorsPass(hash: Hash, job: Job, i: nat, o: Opening, cm: Commitment, rounds: nat, bound: nat)
    requires IsPrime(P) && ValidJob(job) && i < 4 * |job.blocks| && !Passes(hash, Ideal, job, i, o, cm)
    requires Cols(job, i) >= 1 && bound == Pow(Pow(P, Cols(job, i) - 1), rounds)
    ensures |PassingVectors(hash, job, i, o, cm, rounds)| <= bound
  {
    KernelCols(job, i);
    FewPassAt(hash, job, i, o, cm, rounds, bound, KernelOf(job, SpecAt(job, i).op).value);
  }

  lemma FewPassAt(hash: Hash, job: Job, i: nat, o: Opening, cm: Commitment, rounds: nat, bound: nat, kernel: Kernel)
    requires IsPrime(P) && KernelOf(job, SpecAt(job, i).op) == Some(kernel)
    requires Cols(job, i) >= 1 && bound == Pow(Pow(P, Cols(job, i) - 1), rounds)
      && (kernel.act.GemmAct? ==> kernel.act.n == Cols(job, i))
    requires CheckOpening(hash, Ideal, job, SpecAt(job, i), o, cm, kernel) != Accepted
    ensures |PassingVectors(hash, job, i, o, cm, rounds)| <= bound
  {
    FewPass(hash, job, SpecAt(job, i), kernel, o, cm, Cols(job, i), rounds);
  }

  /** Choosing the random vectors after the opening `o` of segment `i`, few of them let it pass. */
  ghost predicate FewPassAnyOf(hash: Hash, job: Job, i: nat, o: Opening, cm: Commitment, rounds: nat) {
    && Cols(job, i) >= 1 && |Tuples(Vectors(Cols(job, i)), rounds)| == Pow(Pow(P, Cols(job, i)), rounds)
    && |PassingVectors(hash, job, i, o, cm, rounds)| <= Pow(Pow(P, Cols(job, i) - 1), rounds)
  }

  ghost predicate Catches(hash: Hash, job: Job, i: nat, cm: Commitment, rounds: nat) {
    forall o :: FewPassAnyOf(hash, job, i, o, cm, rounds)
  }

  /**
   A wrong result leaves a segment on which every opening, however chosen, passes for at most a `P^-rounds` fraction of
   the random vectors drawn after the commitment; or openings of all segments exhibit a collision of the hash.
   */
  lemma WrongResultIsCaught(
      hash: Hash, sigma: string, inHash: string, job: Job, cm: Commitment, result: Tensor, rounds: nat)
    requires IsPrime(P) && ValidJob(job) && result != HonestResult(job)
    requires CheckCommitment(hash, sigma, inHash, Plan(job), cm, result, ResultSig(job)) == Accepted
    ensures (exists i: nat :: i < 4 * |job.blocks| && Catches(hash, job, i, cm, rounds))
      || exists os :: Collides(hash, job, cm, result, os)
  {
    ResultBound(hash, sigma, inHash, Plan(job), cm, result, ResultSig(job));
    DeadSegment(hash, job, cm, result);
    SomeSegmentCatches(hash, job, cm, rounds);
  }

  lemma SomeSegmentCatches(hash: Hash, job: Job, cm: Commitment, rounds: nat)
    requires IsPrime(P) && ValidJob(job)
    ensures (exists i :: 0 <= i < 4 * |job.blocks| && !Openable(hash, job, i, cm)) ==>
      exists i: nat :: i < 4 * |job.blocks| && Catches(hash, job, i, cm, rounds)
  {
    if i :| 0 <= i < 4 * |job.blocks| && !Openable(hash, job, i, cm) { DeadSegmentCatches(hash, job, i, cm, rounds); }
  }

  /**
   Whatever openings are served for a wrong result, some segment's passes for at most that fraction of the random
   vectors, unless two of the tensors they name have the same hash.
   */
  lemma WrongOpeningsAreCaught(hash: Hash, sigma: string, inHash: string, job: Job, cm: Commitment, result: Tensor,
                               os: seq<Opening>, ts: set<Tensor>, rounds: nat) returns (i: nat)
    requires IsPrime(P) && ValidJob(job) && result != HonestResult(job) && |os| == 4 * |job.blocks|
    requires CheckCommitment(hash, sigma, inHash, Plan(job), cm, result, ResultSig(job)) == Accepted
    requires Names(ts, job, os, result) && NoCollision(hash, ts)
    ensures i < |os| && FewPassAnyOf(hash, job, i, os[i], cm, rounds)
  {
    ResultBound(hash, sigma, inHash, Plan(job), cm, result, ResultSig(job));
    i := FailingOpening(hash, job, cm, result, os, ts);
    KernelCols(job, i);
    RunsCard(Cols(job, i), rounds);
    FewVectorsPass(hash, job, i, os[i], cm, rounds, Pow(Pow(P, Cols(job, i) - 1), rounds));
  }

  lemma FailingOpening(
      hash: Hash, job: Job, cm: Commitment, result: Tensor, os: seq<Opening>, ts: set<Tensor>) returns (i: nat)
    requires ValidJob(job) && ResultIsLast(hash, |os|, cm, result) && result != HonestResult(job)
      && |os| == 4 * |job.blocks|
    requires Names(ts, job, os, result) && NoCollision(hash, ts)
    ensures i < |os| && !Passes(hash, Ideal, job, i, os[i], cm)
  {
    if AllOpeningsPass(hash, job, cm, os) { BoundRunIsHonest(hash, job, cm, result, os, ts); }
    i :| 0 <= i < |os| && !Passes(hash, Ideal, job, i, os[i], cm);
  }

  lemma DeadSegmentCatches(hash: Hash, job: Job, i: nat, cm: Commitment, rounds: nat)
    requires IsPrime(P) && ValidJob(job) && i < 4 * |job.blocks| && !Openable(hash, job, i, cm)
    ensures Catches(hash, job, i, cm, rounds)
  {
    KernelCols(job, i);
    RunsCard(Cols(job, i), rounds);
    var bound := Pow(Pow(P, Cols(job, i) - 1), rounds);
    forall o ensures FewPassAnyOf(hash, job, i, o, cm, rounds) {
      assert !Passes(hash, Ideal, job, i, o, cm);
      FewVectorsPass(hash, job, i, o, cm, rounds, bound);
    }
  }
}
