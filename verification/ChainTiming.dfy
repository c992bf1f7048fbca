/**
 The contract's clocks over whole runs of the keeper (contract/contracts/v2/CloudanaSettlementV2.sol): the veto window
 is over before an epoch is final, lane B vests before it is paid, and vetoes and clawbacks come in their windows only.
 */
module ChainTiming {
  import opened Wrappers
  import opened KeeperTree
  import opened Settlement
  import opened Keeper

  /** Lane B of `x` was paid only once vested. */
  predicate PaidInTime(ps: Params, c: Chain, x: Word) {
    FlagsOf(c, x).b ==> c.status.Finalized? && c.now >= c.finalizedAt + ps.vest
  }

  /** A final epoch sat out its veto window, and lane B was paid only once vested. */
  ghost predicate Timely(ps: Params, c: Chain) {
    && (c.status.Finalized? ==> c.postedAt + ps.vetoDelay <= c.finalizedAt <= c.now)
    && forall x: Word {:trigger PaidInTime(ps, c, x)} :: PaidInTime(ps, c, x)
  }

  /** A lane B voided between `c` and `d` was neither vested nor paid. */
  predicate VoidedInTime(ps: Params, c: Chain, d: Chain, x: Word) {
    FlagsOf(d, x).isVoid && !FlagsOf(c, x).isVoid ==>
      c.status.Finalized? && c.now < c.finalizedAt + ps.vest && !FlagsOf(c, x).b
  }

  /**
   Vetoes come within the window of the post, finalizing after it, and clawbacks of unpaid lanes within that of vesting.
   Both windows count from the transaction that opens them, and only a post over nothing or a veto opens the first.
   */
  ghost predicate InTime(ps: Params, c: Chain, d: Chain) {
    && (d.status.Posted? && !c.status.Posted? ==>
         (c.status.None? || c.status.Vetoed?) && d.postedAt == c.now && d.flags == c.flags == map[])
    && (d.status.Posted? && c.status.Posted? ==> d.postedAt == c.postedAt && d.root == c.root && d.posted == c.posted)
    && (d.status.Vetoed? && !c.status.Vetoed? ==>
         c.status.Posted? && c.now < c.postedAt + ps.vetoDelay && d.root == c.root && d.posted == c.posted)
    && (d.status.Finalized? && !c.status.Finalized? ==>
         c.status.Posted? && c.now >= c.postedAt + ps.vetoDelay && d.finalizedAt == c.now && d.root == c.root)
    && forall x: Word {:trigger VoidedInTime(ps, c, d, x)} :: VoidedInTime(ps, c, d, x)
  }

  ghost predicate StepsInTime(ps: Params, c: Chain, d: Chain) {
    (ChainOk(c) && Timely(ps, c) ==> Timely(ps, d)) && InTime(ps, c, d)
  }

  /** What changes no flag, and no status to final or vetoed. */
  lemma SameFlags(ps: Params, c: Chain, d: Chain)
    requires d.flags == c.flags && c.now <= d.now
    requires d.status == c.status && d.postedAt == c.postedAt && d.finalizedAt == c.finalizedAt
    requires d.root == c.root && d.posted == c.posted
    ensures StepsInTime(ps, c, d)
  {
    forall x: Word ensures VoidedInTime(ps, c, d, x) && (PaidInTime(ps, c, x) ==> PaidInTime(ps, d, x)) {
      assert FlagsOf(d, x) == FlagsOf(c, x);
    }
  }

  lemma NoFlags(c: Chain, d: Chain)
    requires ChainOk(c) && !c.status.Finalized? && d.flags == c.flags
    ensures forall x: Word :: FlagsOf(d, x) == Flags(false, false, false)
  {
  }

  lemma PostInTime(ps: Params, c: Chain, leaves: seq<WeiLeaf>, root: Word, a: nat, b: nat, d: Chain)
    requires ChainOk(c) && PostTx(c, leaves, root, a, b) == Some(d)
    ensures StepsInTime(ps, c, d)
  {
    NoFlags(c, d);
  }

  lemma VetoInTime(ps: Params, c: Chain, d: Chain)
    requires ChainOk(c) && VetoTx(ps, c) == Some(d)
    ensures StepsInTime(ps, c, d)
  {
    NoFlags(c, d);
  }

  lemma FinalizeInTime(ps: Params, c: Chain, d: Chain)
    requires ChainOk(c) && FinalizeTx(ps, c) == Some(d)
    ensures StepsInTime(ps, c, d)
  {
    NoFlags(c, d);
  }

  lemma ClaimInTime(ps: Params, c: Chain, l: WeiLeaf, d: Chain)
    requires ClaimTx(ps, c, l) == Some(d)
    ensures StepsInTime(ps, c, d)
    ensures d.status == c.status && d.now == c.now && d.finalizedAt == c.finalizedAt
    ensures forall x: Word :: FlagsOf(d, x).isVoid == FlagsOf(c, x).isVoid
  {
    forall x: Word ensures VoidedInTime(ps, c, d, x) && (PaidInTime(ps, c, x) ==> PaidInTime(ps, d, x)) {
      assert x != l.account ==> FlagsOf(d, x) == FlagsOf(c, x);
      assert FlagsOf(d, l.account).isVoid == FlagsOf(c, l.account).isVoid;
    }
  }

  lemma ClawInTime(ps: Params, c: Chain, l: WeiLeaf, d: Chain)
    requires ClawTx(ps, c, l) == Some(d)
    ensures StepsInTime(ps, c, d)
  {
    forall x: Word ensures VoidedInTime(ps, c, d, x) && (PaidInTime(ps, c, x) ==> PaidInTime(ps, d, x)) {
      assert x != l.account ==> FlagsOf(d, x) == FlagsOf(c, x);
      assert FlagsOf(d, l.account).b == FlagsOf(c, l.account).b;
    }
  }

  lemma {:induction false} ClaimsInTime(ps: Params, c: Chain, entries: seq<WeiLeaf>, d: Chain)
    requires ChainOk(c) && ClaimForTx(ps, c, entries) == Some(d)
    ensures StepsInTime(ps, c, d)
    ensures d.status == c.status && d.now == c.now && d.finalizedAt == c.finalizedAt
    ensures forall x: Word :: FlagsOf(d, x).isVoid == FlagsOf(c, x).isVoid
    decreases |entries|
  {
    if entries == [] {
      SameFlags(ps, c, d);
    } else {
      var m := ClaimTx(ps, c, entries[0]).value;
      ClaimInTime(ps, c, entries[0], m);
      ClaimStep(ps, c, entries[0], m);
      ClaimsInTime(ps, m, entries[1..], d);
      ClaimForKeeps(ps, c, entries, d);
    }
  }

  lemma EnvInTime(cfg: Config, c: Chain, d: Chain)
    requires ChainOk(c) && EnvTx(cfg, c, d)
    ensures StepsInTime(cfg.ps, c, d)
  {
    if now: nat :| now >= c.now && d == c.(now := now) {
      SameFlags(cfg.ps, c, d);
    } else if FinalizeTx(cfg.ps, c) == Some(d) {
      FinalizeInTime(cfg.ps, c, d);
    } else if l :| ClaimTx(cfg.ps, c, l) == Some(d) {
      ClaimInTime(cfg.ps, c, l, d);
    } else {
      var l :| ClawTx(cfg.ps, c, l) == Some(d);
      ClawInTime(cfg.ps, c, l, d);
    }
  }

  lemma TxInTime(cfg: Config, c: Chain, tx: Tx, d: Chain)
    requires ChainOk(c) && Mine(cfg.ps, c, tx) == Some(d)
    ensures StepsInTime(cfg.ps, c, d)
  {
    match tx
    case LatePost(job) => PostInTime(cfg.ps, c, job.leaves, job.root, job.totalA, job.totalB, d);
    case LateFinalize => FinalizeInTime(cfg.ps, c, d);
    case LateClaim(_, entries) => ClaimsInTime(cfg.ps, c, entries, d);
  }

  lemma PassInTime(cfg: Config, s: State, t: State)
    requires cfg.chunk > 0 && ChainOk(s.chain) && PassStep(cfg, s, t)
    ensures StepsInTime(cfg.ps, s.chain, t.chain)
  {
    if s.pass.AtPost? {
      TxInTime(cfg, s.chain, LatePost(s.pass.job), t.chain);
    } else if s.pass.AtFinalize? {
      FinalizeInTime(cfg.ps, s.chain, t.chain);
    } else if s.pass.AtClaim? && s.pass.rest != [] {
      ClaimsInTime(cfg.ps, s.chain, s.pass.rest[0], t.chain);
    } else {
      SameFlags(cfg.ps, s.chain, t.chain);
    }
  }

  lemma StepInTime(cfg: Config, s: State, t: State)
    requires cfg.chunk > 0 && ChainOk(s.chain) && Step(cfg, s, t)
    ensures StepsInTime(cfg.ps, s.chain, t.chain)
  {
    if PassStep(cfg, s, t) {
      PassInTime(cfg, s, t);
    } else if k: nat :| MineStep(cfg, s, t, k) {
      if t.chain == s.chain {
        SameFlags(cfg.ps, s.chain, t.chain);
      } else {
        TxInTime(cfg, s.chain, s.pending[k], t.chain);
      }
    } else if EnvTx(cfg, s.chain, t.chain) {
      EnvInTime(cfg, s.chain, t.chain);
    } else if VetoTx(cfg.ps, s.chain) == Some(t.chain) {
      VetoInTime(cfg.ps, s.chain, t.chain);
    } else {
      SameFlags(cfg.ps, s.chain, t.chain);
    }
  }

  /**
   Over every run: a final epoch sat out its veto window, lane B was paid only once vested, and every post, veto,
   finalizing and clawback on the way came in its own time.
   */
  lemma {:induction false} RunIsTimely(cfg: Config, run: seq<State>, i: nat)
    requires IsRun(cfg, run) && i < |run|
    ensures Timely(cfg.ps, run[i].chain)
    ensures forall j :: 0 < j <= i ==> InTime(cfg.ps, run[j - 1].chain, run[j].chain)
  {
    if i > 0 {
      RunIsTimely(cfg, run, i - 1);
      RunKeeps(cfg, run, i - 1);
      StepInTime(cfg, run[i - 1], run[i]);
    }
  }
}
