/**
 The settlement keeper (keeper/src/run.ts): a stateless pass over one epoch, interleaved at every call
 with the guardian, other claimants and the clock, and cut short at any point.
 */
module Keeper {
  import opened Wrappers
  import opened KeeperTree
  import opened Settlement
  import opened Batches

  /**
   Roots come from `rootOf` (the tree of `KeeperTree`, 0 for no leaves); `known` holds every leaf list the API ever
   sends.
   */
  datatype Config = Config(ps: Params, rootOf: seq<WeiLeaf> -> Word, known: set<seq<WeiLeaf>>, chunk: nat)

  // ---- The pure part of a pass ----

  datatype Payload = Payload(
    apiRoot: Word, leaves: seq<ApiLeaf>, totalA: int, totalB: int, treasury: int, fees: int, apiPosted: bool)

  /** A payload that passed the checks. */
  datatype Job = Job(leaves: seq<WeiLeaf>, root: Word, totalA: nat, totalB: nat, apiPosted: bool)

  /** Rebuild the tree, compare roots, compare totals; `Option.None` where the source skips or throws. */
  function Prepare(cfg: Config, p: Payload): (r: Option<Job>)
    ensures r.Some? ==>
      r.value.root == p.apiRoot == cfg.rootOf(r.value.leaves)
      && (r.value.totalA, r.value.totalB) == SumLanes(r.value.leaves)
  {
    var wei := WeiLeaves(p.leaves);
    var a, b, t, f := ToWei(p.totalA), ToWei(p.totalB), ToWei(p.treasury), ToWei(p.fees);
    if p.leaves == [] && (f.Err? || f.value == 0) then Option.None
    else if wei.Err? || cfg.rootOf(wei.value) != p.apiRoot then Option.None
    else if a.Err? || b.Err? || t.Err? || f.Err? then Option.None
    else if SumLanes(wei.value) != (a.value, b.value) then Option.None
    else Some(Job(wei.value, p.apiRoot, a.value, b.value, p.apiPosted))
  }

  // ---- Which payloads go on, in the API's own amounts ----

  /** A leaf whose amounts in wei, 10^12 of them to the API's unit, fit a word of 256 bits. */
  predicate Billable(l: ApiLeaf) {
    && 0 <= l.laneAUcld && l.laneAUcld * 1_000_000_000_000 <= WORD_MAX
    && 0 <= l.laneBUcld && l.laneBUcld * 1_000_000_000_000 <= WORD_MAX
  }

  ghost predicate InWei(api: seq<ApiLeaf>, wei: seq<WeiLeaf>) {
    |wei| == |api| && forall k :: 0 <= k < |api| ==> LeafInWei(api[k], wei[k])
  }

  predicate LeafInWei(l: ApiLeaf, w: WeiLeaf) {
    && w.account == l.account
    && w.laneA == l.laneAUcld * 1_000_000_000_000 && w.laneB == l.laneBUcld * 1_000_000_000_000
  }

  /** There are leaves or fees, no amount is negative, the root is that of the leaves, and the totals are their sums. */
  ghost predicate GoesOn(cfg: Config, p: Payload, job: Job) {
    && (p.leaves != [] || p.fees > 0) && p.fees >= 0 && p.treasury >= 0
    && (forall k :: 0 <= k < |p.leaves| ==> Billable(p.leaves[k])) && InWei(p.leaves, job.leaves)
    && cfg.rootOf(job.leaves) == p.apiRoot == job.root && (p.totalA, p.totalB) == UcldSums(p.leaves)
    && job.totalA == p.totalA * 1_000_000_000_000 && job.totalB == p.totalB * 1_000_000_000_000
    && job.apiPosted == p.apiPosted
  }

  lemma BillableIff(l: ApiLeaf)
    ensures ToLeaf(l).Ok? <==> Billable(l)
    ensures ToLeaf(l).Ok? ==> LeafInWei(l, ToLeaf(l).value)
  {
  }

  lemma WeiLeavesIff(api: seq<ApiLeaf>)
    ensures WeiLeaves(api).Ok? <==> forall k :: 0 <= k < |api| ==> Billable(api[k])
    ensures WeiLeaves(api).Ok? ==> InWei(api, WeiLeaves(api).value)
  {
    forall k | 0 <= k < |api|
      ensures ToLeaf(api[k]).Ok? <==> Billable(api[k])
      ensures ToLeaf(api[k]).Ok? ==> LeafInWei(api[k], ToLeaf(api[k]).value)
    {
      BillableIff(api[k]);
    }
  }

  lemma InWeiUnique(api: seq<ApiLeaf>, x: seq<WeiLeaf>, y: seq<WeiLeaf>)
    requires InWei(api, x) && InWei(api, y)
    ensures x == y
  {
    forall k | 0 <= k < |api| ensures x[k] == y[k] { assert LeafInWei(api[k], x[k]) && LeafInWei(api[k], y[k]); }
  }

  /** A payload goes on exactly when it should, as the job it stands for; every other one is skipped. */
  lemma PrepareIff(cfg: Config, p: Payload, job: Job)
    ensures Prepare(cfg, p) == Some(job) <==> GoesOn(cfg, p, job)
  {
    WeiLeavesIff(p.leaves);
    if WeiLeaves(p.leaves).Ok? {
      var wei := WeiLeaves(p.leaves).value;
      TotalsAgreeIff(p.leaves, p.totalA, p.totalB);
      SumsNonNegative(p.leaves);
      if InWei(p.leaves, job.leaves) { InWeiUnique(p.leaves, wei, job.leaves); }
      PreparedAs(cfg, p, job, wei);
    }
  }

  lemma PreparedAs(cfg: Config, p: Payload, job: Job, wei: seq<WeiLeaf>)
    requires WeiLeaves(p.leaves) == Ok(wei) && InWei(p.leaves, wei)
      && (InWei(p.leaves, job.leaves) ==> job.leaves == wei)
    requires forall k :: 0 <= k < |p.leaves| ==> Billable(p.leaves[k])
    requires UcldSums(p.leaves).0 >= 0 && UcldSums(p.leaves).1 >= 0
    requires ToWei(p.totalA).Ok? && ToWei(p.totalB).Ok?
      && SumLanes(wei) == (ToWei(p.totalA).value, ToWei(p.totalB).value)
      <==> (p.totalA, p.totalB) == UcldSums(p.leaves)
    ensures Prepare(cfg, p) == Some(job) <==> GoesOn(cfg, p, job)
  {
  }

  /** An epoch whose every entry was clawed, with fees left to burn, goes on with no leaves and the root 0. */
  lemma AllClawedGoesOn(cfg: Config, p: Payload)
    requires cfg.rootOf([]) == 0 && p.leaves == [] && p.totalA == p.totalB == p.apiRoot == 0 && p.treasury >= 0
    ensures Prepare(cfg, p) == if p.fees > 0 then Some(Job([], 0, 0, 0, p.apiPosted)) else Option.None
  {
    PrepareIff(cfg, p, Job([], 0, 0, 0, p.apiPosted));
    var r := Prepare(cfg, p);
    if r.Some? { PrepareIff(cfg, p, r.value); }
  }

  /** The leaves to claim now, and how many lane B are still vesting. */
  function Needed(leaves: seq<WeiLeaf>, c: Chain, vested: bool): (e: seq<WeiLeaf>)
    ensures forall l :: l in e <==> l in leaves && (OpenA(c, l) || (OpenB(c, l) && vested))
  {
    if leaves == [] then [] else
    var l := leaves[|leaves| - 1];
    assert leaves == leaves[..|leaves| - 1] + [l];
    Needed(leaves[..|leaves| - 1], c, vested) + if OpenA(c, l) || (OpenB(c, l) && vested) then [l] else []
  }

  function Vesting(leaves: seq<WeiLeaf>, c: Chain, vested: bool): (n: nat)
    ensures n == 0 <==> forall l :: l in leaves && OpenB(c, l) ==> vested
  {
    if leaves == [] then 0 else
    var l := leaves[|leaves| - 1];
    assert leaves == leaves[..|leaves| - 1] + [l];
    Vesting(leaves[..|leaves| - 1], c, vested) + if OpenB(c, l) && !vested then 1 else 0
  }

  /** The loop of `claimAll` over the leaves and their flags. */
  method CollectEntries(leaves: seq<WeiLeaf>, c: Chain, vested: bool) returns (entries: seq<WeiLeaf>, stillVesting: nat)
    ensures entries == Needed(leaves, c, vested) && stillVesting == Vesting(leaves, c, vested)
  {
    entries, stillVesting := [], 0;
    for i := 0 to |leaves|
      invariant entries == Needed(leaves[..i], c, vested) && stillVesting == Vesting(leaves[..i], c, vested)
    {
      var l := leaves[i];
      var f := FlagsOf(c, l.account);
      var needA := l.laneA > 0 && !f.a;
      var bOpen := l.laneB > 0 && !f.b && !f.isVoid;
      if needA || (bOpen && vested) { entries := entries + [l]; }
      if bOpen && !vested { stillVesting := stillVesting + 1; }
      assert leaves[..i + 1][..i] == leaves[..i];
    }
    assert leaves[..|leaves|] == leaves;
  }

  // ---- A pass as steps ----

  datatype Outcome =
    | PostedOut
    | FinalizedOut(claims: nat, done: bool)
    | ClaimedOut(claims: nat, done: bool)
    | MarkedVetoed
    | Waiting
    | Skipped

  /** Where the pass is: the next call it makes, with the local variables it still needs. */
  datatype Pass =
    | Idle
    | AtEpoch(job: Job)
    | AtNow(job: Job, on: Chain)
    | AtVetoed(job: Job)
    | AtEscrow(job: Job)
    | AtAllowance(job: Job)
    | AtPost(job: Job)
    | AtPosted(job: Job)
    | AtMark(job: Job, on: Chain, now: nat)
    | AtFinalize(job: Job)
    | AtReread(job: Job)
    | AtClaimNow(job: Job, vestsAt: nat, fin: bool)
    | AtFlags(job: Job, vested: bool, fin: bool)
    | AtClaim(job: Job, rest: seq<seq<WeiLeaf>>, claims: nat, vesting: nat, vested: bool, fin: bool)
    | AtSettled(job: Job, claims: nat, fin: bool)
    | Done(outcome: Outcome)

  /** Calls with an effect, with the chain they met and whether a late post was mined since the pass read the epoch. */
  datatype Call =
    | PostCall(job: Job, at: Chain, late: bool)
    | PostedCall(job: Job, at: Chain, late: bool)
    | VetoedCall(job: Job, at: Chain, late: bool)
    | SettledCall(job: Job, at: Chain, late: bool)

  /** A transaction that was broadcast by a pass that died before its receipt. */
  datatype Tx = LatePost(job: Job) | LateFinalize | LateClaim(root: Word, entries: seq<WeiLeaf>)

  /**
   `pending` holds the transactions of dead passes, oldest first, each mined or dropped at any time; `late` is whether
   one of their posts was mined since the pass read the epoch or posted it. `start` is the progress measure when the
   pass began, `vetoed` whether a veto came since.
   */
  datatype State = State(
    chain: Chain, pass: Pass, settled: bool, calls: seq<Call>, start: Measure, vetoed: bool, pending: seq<Tx>,
    late: bool)

  /**
   Progress: the epoch's stage, the open lanes of a final epoch, and whether the API still lists it. Compared
   lexicographically.
   */
  datatype Measure = Measure(stage: nat, open: int, listed: nat)

  function MeasureOf(c: Chain, settled: bool): Measure {
    Measure(if c.status.Finalized? then 0 else if c.status.Posted? then 1 else 2,
            if c.status.Finalized? then SumOf(c.posted, OpenLanes(c)) else 0, if settled then 0 else 1)
  }

  predicate Less(m: Measure, k: Measure) {
    m.stage < k.stage || (m.stage == k.stage && (m.open < k.open || (m.open == k.open && m.listed < k.listed)))
  }

  predicate AtMost(m: Measure, k: Measure) { m == k || Less(m, k) }

  lemma {:induction false} OpenIsNat(c: Chain, leaves: seq<WeiLeaf>)
    ensures SumOf(leaves, OpenLanes(c)) >= 0
  {
    if leaves != [] { OpenIsNat(c, leaves[..|leaves| - 1]); }
  }

  function AfterReads(cfg: Config, job: Job, on: Chain, now: nat): Pass {
    if on.status.None? || on.status.Vetoed? then
      if on.status.Vetoed? && on.root == job.root then (if job.root == 0 then Done(Skipped) else AtVetoed(job))
      else if job.apiPosted || cfg.ps.epoch < cfg.ps.genesisEpoch then Done(Skipped)
      else if now < (cfg.ps.epoch + 1) * cfg.ps.epochSeconds then Done(Waiting)
      else AtEscrow(job)
    else if on.root != job.root then Done(Skipped)
    else if job.apiPosted then AfterMark(cfg, job, on, now)
    else AtMark(job, on, now)
  }

  function AfterMark(cfg: Config, job: Job, on: Chain, now: nat): Pass {
    if on.status.Posted? then (if now < on.postedAt + cfg.ps.vetoDelay then Done(Waiting) else AtFinalize(job))
    else AtClaimNow(job, on.finalizedAt + cfg.ps.vest, false)
  }

  function Ended(fin: bool, claims: nat, done: bool): Pass {
    Done(if fin then FinalizedOut(claims, done) else if claims == 0 && !done then Waiting else ClaimedOut(claims, done))
  }

  /** `claimFor` with proofs of the tree with the given root: they fold to that root and to no other. */
  function ClaimWith(ps: Params, c: Chain, root: Word, entries: seq<WeiLeaf>): Option<Chain> {
    if c.root == root then ClaimForTx(ps, c, entries) else Option.None
  }

  /** The pass makes its next call, and the call succeeds. */
  ghost predicate PassStep(cfg: Config, s: State, t: State)
    requires cfg.chunk > 0
  {
    var c := s.chain;
    match s.pass
    case Idle => false
    case Done(_) => false
    case AtEpoch(job) => t == s.(pass := AtNow(job, c), late := false)
    case AtNow(job, on) => t == s.(pass := AfterReads(cfg, job, on, c.now))
    case AtVetoed(job) => t == s.(pass := Done(MarkedVetoed), calls := s.calls + [VetoedCall(job, c, s.late)])
    case AtEscrow(job) => t == s.(pass := Done(Skipped)) || t == s.(pass := AtAllowance(job))
    case AtAllowance(job) => t == s.(pass := Done(Skipped)) || t == s.(pass := AtPost(job))
    case AtPost(job) =>
      var tx := PostTx(c, job.leaves, job.root, job.totalA, job.totalB);
      && tx.Some?
      && t == s.(chain := tx.value, pass := AtPosted(job), calls := s.calls + [PostCall(job, c, s.late)], late := false)
    case AtPosted(job) => t == s.(pass := Done(PostedOut), calls := s.calls + [PostedCall(job, c, s.late)])
    case AtMark(job, on, now) =>
      t == s.(pass := AfterMark(cfg, job, on, now), calls := s.calls + [PostedCall(job, c, s.late)])
    case AtFinalize(job) =>
      var tx := FinalizeTx(cfg.ps, c);
      tx.Some? && t == s.(chain := tx.value, pass := AtReread(job))
    case AtReread(job) => t == s.(pass := AtClaimNow(job, c.finalizedAt + cfg.ps.vest, true))
    case AtClaimNow(job, vestsAt, fin) => t == s.(pass := AtFlags(job, c.now >= vestsAt, fin))
    case AtFlags(job, vested, fin) =>
      var batches := Chunks(Needed(job.leaves, c, vested), cfg.chunk);
      t == s.(pass := AtClaim(job, batches, 0, Vesting(job.leaves, c, vested), vested, fin))
    case AtClaim(job, rest, claims, vesting, vested, fin) =>
      if rest == [] then
        t == s.(pass := if vesting == 0 then AtSettled(job, claims, fin) else Ended(fin, claims, false))
      else
        var tx := ClaimWith(cfg.ps, c, job.root, rest[0]);
        && tx.Some?
        && t == s.(chain := tx.value, pass := AtClaim(job, rest[1..], claims + |rest[0]|, vesting, vested, fin))
    case AtSettled(job, claims, fin) =>
      t == s.(pass := Ended(fin, claims, true), settled := true, calls := s.calls + [SettledCall(job, c, s.late)])
  }

  /** The clock, the guardian and other claimants. */
  ghost predicate EnvTx(cfg: Config, c: Chain, d: Chain) {
    || (exists now: nat :: now >= c.now && d == c.(now := now))
    || FinalizeTx(cfg.ps, c) == Some(d)
    || (exists l :: ClaimTx(cfg.ps, c, l) == Some(d))
    || (exists l :: ClawTx(cfg.ps, c, l) == Some(d))
  }

  /** A new pass over whatever the API lists now. */
  ghost predicate Begins(cfg: Config, s: State, t: State) {
    && (s.pass.Idle? || s.pass.Done?) && !s.settled
    && t.pass.AtEpoch? && (exists p :: Prepare(cfg, p) == Some(t.pass.job)) && t.pass.job.leaves in cfg.known
    && t == s.(pass := t.pass, start := MeasureOf(s.chain, s.settled), vetoed := false)
  }

  /** The transaction a pass is waiting for. */
  function InFlight(pass: Pass): seq<Tx> {
    match pass
    case AtPost(job) => [LatePost(job)]
    case AtFinalize(_) => [LateFinalize]
    case AtClaim(job, rest, _, _, _, _) => if rest == [] then [] else [LateClaim(job.root, rest[0])]
    case _ => []
  }

  function Mine(ps: Params, c: Chain, tx: Tx): Option<Chain> {
    match tx
    case LatePost(job) => PostTx(c, job.leaves, job.root, job.totalA, job.totalB)
    case LateFinalize => FinalizeTx(ps, c)
    case LateClaim(root, entries) => ClaimWith(ps, c, root, entries)
  }

  function Without(txs: seq<Tx>, k: nat): seq<Tx>
    requires k < |txs|
  {
    txs[..k] + txs[k + 1..]
  }

  /** Transaction `k` of a dead pass is mined; one that reverts changes nothing. */
  ghost predicate MineStep(cfg: Config, s: State, t: State, k: nat) {
    && k < |s.pending|
    && var d := Mine(cfg.ps, s.chain, s.pending[k]);
       t == s.(chain := if d.Some? then d.value else s.chain, pending := Without(s.pending, k),
               late := s.late || (d.Some? && s.pending[k].LatePost?))
  }

  /** It is dropped unmined. */
  ghost predicate DropStep(s: State, t: State, k: nat) { k < |s.pending| && t == s.(pending := Without(s.pending, k)) }

  /** Everything that happens short of a new pass. */
  ghost predicate Proceeds(cfg: Config, s: State, t: State)
    requires cfg.chunk > 0
  {
    || PassStep(cfg, s, t)
    || t == s.(pass := Idle) // the pass is cut short, or a call fails
    || t == s.(pass := Idle, pending := s.pending + InFlight(s.pass)) // it dies waiting for a receipt
    || (exists k :: MineStep(cfg, s, t, k))
    || (exists k :: DropStep(s, t, k))
    || (EnvTx(cfg, s.chain, t.chain) && t == s.(chain := t.chain))
    || (VetoTx(cfg.ps, s.chain) == Some(t.chain) && t == s.(chain := t.chain, vetoed := true))
  }

  ghost predicate Step(cfg: Config, s: State, t: State)
    requires cfg.chunk > 0
  {
    Proceeds(cfg, s, t) || Begins(cfg, s, t)
  }

  ghost predicate Init(s: State) {
    && s.chain.status.None? && s.chain.flags == map[] && s.chain.mintedA == 0 && s.chain.mintedB == 0
    && s.chain.postedAt <= s.chain.now && s.pass.Idle? && s.calls == [] && !s.settled && s.pending == []
  }

  ghost predicate IsRun(cfg: Config, run: seq<State>) {
    && cfg.chunk > 0 && |run| > 0 && Init(run[0])
    && forall i {:trigger run[i]} :: 0 < i < |run| ==> Step(cfg, run[i - 1], run[i])
  }

  // ---- The invariant ----

  ghost predicate GoodJob(cfg: Config, job: Job) {
    job.root == cfg.rootOf(job.leaves) && (job.totalA, job.totalB) == SumLanes(job.leaves) && job.leaves in cfg.known
  }

  /**
   What holds when each call is made. The job is always good, a post only meets an ended epoch that is not live and that
   the API does not call posted, and a settled report only a final epoch with every lane of the job's leaves settled.
   What a call says of the chain's root holds
   unless a late post was mined since the pass read the epoch.
   */
  ghost predicate GoodCall(cfg: Config, call: Call) {
    && GoodJob(cfg, call.job)
    && match call
       case PostCall(job, at, late) =>
         (at.status.None? || at.status.Vetoed?) && (!late ==> Postable(at, job)) && Due(cfg, at, job)
       case PostedCall(job, at, late) => !at.status.None? && (!late ==> at.root == job.root)
       case VetoedCall(job, at, late) => !at.status.None? && job.root != 0
         && (!late ==> at.status.Vetoed? && at.root == job.root)
       case SettledCall(job, at, late) => FinalFor(at, job, late) && AllSettled(at, job.leaves)
  }

  /** The chain `c` has only moved on, without a post, from what was read as `on`. */
  ghost predicate Later(on: Chain, c: Chain) {
    && (on.status.None? ==> c.status.None?)
    && (on.status.Vetoed? ==> c.status.Vetoed?)
    && (on.status.Posted? ==> !c.status.None?)
    && (on.status.Finalized? ==> c.status.Finalized? && c.finalizedAt == on.finalizedAt)
    && (!on.status.None? ==> c.root == on.root)
  }

  /** The same, but for a late post: a final epoch stays as it is, and a posted one does not vanish. */
  ghost predicate LaterOr(on: Chain, c: Chain, late: bool) {
    && (!late ==> Later(on, c)) && (!on.status.None? ==> !c.status.None?)
    && (on.status.Finalized? ==> c.status.Finalized? && c.finalizedAt == on.finalizedAt && c.root == on.root)
  }

  ghost predicate FinalFor(c: Chain, job: Job, late: bool) { c.status.Finalized? && (!late ==> c.root == job.root) }

  ghost predicate LiveFor(c: Chain, job: Job, late: bool) { !c.status.None? && (!late ==> c.root == job.root) }

  /** The epoch has ended, the contract knows it, and the API does not say that it is posted. */
  predicate Due(cfg: Config, c: Chain, job: Job) {
    && c.now >= (cfg.ps.epoch + 1) * cfg.ps.epochSeconds && cfg.ps.epoch >= cfg.ps.genesisEpoch
    && !job.apiPosted
  }

  ghost predicate Postable(c: Chain, job: Job) { c.status.None? || (c.status.Vetoed? && c.root != job.root) }

  /** A leaf's lanes are settled, or it is still in the batches to come, or lane B is counted as vesting. */
  ghost predicate Covered(c: Chain, l: WeiLeaf, todo: seq<WeiLeaf>, vesting: nat, vested: bool) {
    (OpenA(c, l) ==> l in todo) && (OpenB(c, l) ==> vesting > 0 || (vested && l in todo))
  }

  ghost predicate LocalOk(cfg: Config, c: Chain, pass: Pass, late: bool) {
    && (pass.Idle? || pass.Done? || GoodJob(cfg, pass.job))
    && match pass
       case Idle => true
       case Done(_) => true
       case AtEpoch(_) => true
       case AtNow(_, on) => LaterOr(on, c, late)
       case AtVetoed(job) => !c.status.None? && job.root != 0 && (!late ==> c.status.Vetoed? && c.root == job.root)
       case AtEscrow(job) => (!late ==> Postable(c, job)) && Due(cfg, c, job)
       case AtAllowance(job) => (!late ==> Postable(c, job)) && Due(cfg, c, job)
       case AtPost(job) => (!late ==> Postable(c, job)) && Due(cfg, c, job)
       case AtPosted(job) => LiveFor(c, job, late)
       case AtMark(job, on, _) => (on.status.Posted? || on.status.Finalized?) && on.root == job.root
         && LaterOr(on, c, late)
       case AtFinalize(job) => LiveFor(c, job, late)
       case AtReread(job) => FinalFor(c, job, late)
       case AtClaimNow(job, vestsAt, _) => FinalFor(c, job, late) && vestsAt == c.finalizedAt + cfg.ps.vest
       case AtFlags(job, vested, _) => FinalFor(c, job, late) && (vested ==> Vested(cfg.ps, c))
       case AtClaim(job, rest, _, vesting, vested, _) =>
         && FinalFor(c, job, late) && (vested ==> Vested(cfg.ps, c))
         && (forall l :: l in job.leaves ==> Covered(c, l, Flatten(rest), vesting, vested))
         && (forall k :: 0 <= k < |rest| ==> |rest[k]| > 0)
       case AtSettled(job, _, _) => FinalFor(c, job, late) && AllSettled(c, job.leaves)
  }

  /** The pass has already lowered the measure. */
  predicate Advanced(pass: Pass) {
    match pass
    case AtPosted(_) => true
    case AtReread(_) => true
    case AtClaimNow(_, _, fin) => fin
    case AtFlags(_, _, fin) => fin
    case AtClaim(_, _, claims, _, _, fin) => fin || claims > 0
    case AtSettled(_, claims, fin) => fin || claims > 0
    case Done(o) => o.PostedOut? || o.FinalizedOut? || o.ClaimedOut?
    case _ => false
  }

  ghost predicate ProgressOk(s: State) {
    !s.vetoed && !s.pass.Idle? ==>
      && AtMost(MeasureOf(s.chain, s.settled), s.start)
      && (Advanced(s.pass) ==> Less(MeasureOf(s.chain, s.settled), s.start))
      && (!s.pass.Done? ==> !s.settled)
  }

  ghost predicate GoodPosts(cfg: Config, txs: seq<Tx>) {
    forall k :: 0 <= k < |txs| && txs[k].LatePost? ==> GoodJob(cfg, txs[k].job)
  }

  ghost predicate Inv(cfg: Config, s: State) {
    && ChainOk(s.chain)
    && (!s.chain.status.None? ==> s.chain.posted in cfg.known && s.chain.root == cfg.rootOf(s.chain.posted))
    && LocalOk(cfg, s.chain, s.pass, s.late) && ProgressOk(s) && s.chain.postedAt <= s.chain.now
    && GoodPosts(cfg, s.pending)
    && forall k :: 0 <= k < |s.calls| ==> GoodCall(cfg, s.calls[k])
  }

  // ---- The chain moving under a pass ----

  /** A move of the chain other than a post: nothing a pass relies on is lost. */
  ghost predicate Moves(c: Chain, d: Chain) {
    Grows(c, d) && Later(c, d) && d.posted == c.posted && d.postedAt == c.postedAt && ChainOk(d)
  }

  lemma FinalizeMoves(ps: Params, c: Chain, d: Chain)
    requires ChainOk(c) && FinalizeTx(ps, c) == Some(d)
    ensures Moves(c, d)
  {
    assert forall x: Word :: FlagsOf(d, x) == FlagsOf(c, x);
  }

  lemma VetoMoves(ps: Params, c: Chain, d: Chain)
    requires ChainOk(c) && VetoTx(ps, c) == Some(d)
    ensures Moves(c, d)
  {
    assert forall x: Word :: FlagsOf(d, x) == FlagsOf(c, x);
  }

  /** Everyone else's moves, short of a veto, never raise the measure. */
  lemma EnvMoves(cfg: Config, c: Chain, d: Chain, settled: bool)
    requires ChainOk(c) && EnvTx(cfg, c, d)
    ensures Moves(c, d) && AtMost(MeasureOf(d, settled), MeasureOf(c, settled))
  {
    if now: nat :| now >= c.now && d == c.(now := now) {
      assert forall x: Word :: FlagsOf(d, x) == FlagsOf(c, x);
      SumOfSame(c.posted, OpenLanes(d), OpenLanes(c));
    } else if FinalizeTx(cfg.ps, c) == Some(d) {
      FinalizeMoves(cfg.ps, c, d);
    } else if l :| ClaimTx(cfg.ps, c, l) == Some(d) {
      ClaimStep(cfg.ps, c, l, d);
    } else {
      var l :| ClawTx(cfg.ps, c, l) == Some(d);
      ClawStep(cfg.ps, c, l, d);
    }
  }

  lemma LaterTrans(a: Chain, b: Chain, c: Chain, late: bool)
    requires LaterOr(a, b, late) && Later(b, c)
    ensures LaterOr(a, c, late)
  {
  }

  /** Whatever a pass has established survives the chain's moves. */
  lemma LocalSurvives(cfg: Config, c: Chain, d: Chain, pass: Pass, late: bool)
    requires LocalOk(cfg, c, pass, late) && Moves(c, d)
    ensures LocalOk(cfg, d, pass, late)
  {
    match pass
    case AtNow(_, on) => LaterTrans(on, c, d, late);
    case AtMark(_, on, _) => LaterTrans(on, c, d, late);
    case AtClaim(job, rest, _, vesting, vested, _) =>
      forall l | l in job.leaves ensures Covered(d, l, Flatten(rest), vesting, vested) {
        assert Covered(c, l, Flatten(rest), vesting, vested);
        ClosedStays(c, d, l);
      }
    case AtSettled(job, _, _) =>
      forall l | l in job.leaves ensures !OpenA(d, l) && !OpenB(d, l) { ClosedStays(c, d, l); }
    case _ =>
  }

  /** A late post finds no final epoch; what a pass knows of the root is then marked as overtaken. */
  lemma LocalOvertaken(cfg: Config, c: Chain, d: Chain, pass: Pass, late: bool)
    requires LocalOk(cfg, c, pass, late) && !c.status.Finalized? && d.status.Posted? && c.now <= d.now
    ensures LocalOk(cfg, d, pass, true)
  {
  }

  // ---- Every step keeps the invariant ----

  lemma CallsGrow(cfg: Config, calls: seq<Call>, call: Call)
    requires (forall k :: 0 <= k < |calls| ==> GoodCall(cfg, calls[k])) && GoodCall(cfg, call)
    ensures forall k :: 0 <= k < |calls + [call]| ==> GoodCall(cfg, (calls + [call])[k])
  {
  }

  lemma MarkKeeps(cfg: Config, c: Chain, job: Job, on: Chain, now: nat, late: bool)
    requires GoodJob(cfg, job) && LaterOr(on, c, late) && (on.status.Posted? || on.status.Finalized?)
      && on.root == job.root
    ensures LocalOk(cfg, c, AfterMark(cfg, job, on, now), late) && !Advanced(AfterMark(cfg, job, on, now))
      && !AfterMark(cfg, job, on, now).Idle?
  {
  }

  lemma ReadsKeep(cfg: Config, c: Chain, job: Job, on: Chain, now: nat, late: bool)
    requires GoodJob(cfg, job) && LaterOr(on, c, late) && now <= c.now
    ensures LocalOk(cfg, c, AfterReads(cfg, job, on, now), late) && !Advanced(AfterReads(cfg, job, on, now))
      && !AfterReads(cfg, job, on, now).Idle?
  {
    if (on.status.Posted? || on.status.Finalized?) && on.root == job.root { MarkKeeps(cfg, c, job, on, now, late); }
  }

  /** Posting lowers the stage. */
  lemma PostKeeps(cfg: Config, s: State, t: State)
    requires cfg.chunk > 0 && Inv(cfg, s) && s.pass.AtPost? && PassStep(cfg, s, t)
    ensures Inv(cfg, t)
  {
    CallsGrow(cfg, s.calls, PostCall(s.pass.job, s.chain, s.late));
    assert forall x: Word :: FlagsOf(t.chain, x) == FlagsOf(s.chain, x);
  }

  lemma FinalizeKeeps(cfg: Config, s: State, t: State)
    requires cfg.chunk > 0 && Inv(cfg, s) && s.pass.AtFinalize? && PassStep(cfg, s, t)
    ensures Inv(cfg, t)
  {
    FinalizeMoves(cfg.ps, s.chain, t.chain);
  }

  /** The batches built from the flags cover every leaf. */
  lemma FlagsKeep(cfg: Config, s: State, t: State)
    requires cfg.chunk > 0 && Inv(cfg, s) && s.pass.AtFlags? && PassStep(cfg, s, t)
    ensures Inv(cfg, t)
  {
    ChunksPartition(Needed(s.pass.job.leaves, s.chain, s.pass.vested), cfg.chunk);
  }

  /** A batch claimed leaves the others covered, and lowers the number of open lanes. */
  lemma ClaimKeeps(cfg: Config, s: State, t: State)
    requires cfg.chunk > 0 && Inv(cfg, s) && s.pass.AtClaim? && s.pass.rest != [] && PassStep(cfg, s, t)
    ensures Inv(cfg, t)
  {
    var c, d, rest := s.chain, t.chain, s.pass.rest;
    ClaimForStep(cfg.ps, c, rest[0], d);
    ClaimForKeeps(cfg.ps, c, rest[0], d);
    BatchCovers(cfg.ps, c, d, s.pass.job.leaves, rest[0], Flatten(rest[1..]), s.pass.vesting, s.pass.vested);
  }

  lemma BatchCovers(
      ps: Params, c: Chain, d: Chain, leaves: seq<WeiLeaf>, batch: seq<WeiLeaf>, todo: seq<WeiLeaf>, vesting: nat,
      vested: bool)
    requires forall l :: l in leaves ==> Covered(c, l, batch + todo, vesting, vested)
    requires ChainOk(c) && ClaimForTx(ps, c, batch) == Some(d) && (vested ==> Vested(ps, c))
    ensures forall l :: l in leaves ==> Covered(d, l, todo, vesting, vested)
  {
    ClaimForStep(ps, c, batch, d);
    forall l | l in leaves ensures Covered(d, l, todo, vesting, vested) {
      assert Covered(c, l, batch + todo, vesting, vested);
      ClosedStays(c, d, l);
    }
  }

  lemma LastKeeps(cfg: Config, s: State, t: State)
    requires cfg.chunk > 0 && Inv(cfg, s) && s.pass.AtClaim? && s.pass.rest == [] && PassStep(cfg, s, t)
    ensures Inv(cfg, t)
  {
    forall l | l in s.pass.job.leaves && s.pass.vesting == 0 ensures !OpenA(s.chain, l) && !OpenB(s.chain, l) {
      assert Covered(s.chain, l, Flatten(s.pass.rest), s.pass.vesting, s.pass.vested);
    }
  }

  lemma SettleKeeps(cfg: Config, s: State, t: State)
    requires cfg.chunk > 0 && Inv(cfg, s) && s.pass.AtSettled? && PassStep(cfg, s, t)
    ensures Inv(cfg, t)
  {
    CallsGrow(cfg, s.calls, SettledCall(s.pass.job, s.chain, s.late));
  }

  /** A step that leaves the chain alone. */
  lemma Quiet(cfg: Config, s: State, pass: Pass, calls: seq<Call>, late: bool)
    requires Inv(cfg, s) && !s.pass.Idle? && !s.pass.Done?
    requires LocalOk(cfg, s.chain, pass, late) && !pass.Idle? && (Advanced(pass) ==> Advanced(s.pass))
    requires forall k :: 0 <= k < |calls| ==> GoodCall(cfg, calls[k])
    ensures Inv(cfg, s.(pass := pass, calls := calls, late := late))
  {
  }

  lemma ReadKeeps(cfg: Config, s: State, t: State)
    requires cfg.chunk > 0 && Inv(cfg, s) && PassStep(cfg, s, t)
    requires s.pass.AtEpoch? || s.pass.AtNow? || s.pass.AtEscrow? || s.pass.AtAllowance? || s.pass.AtReread?
      || s.pass.AtClaimNow?
    ensures Inv(cfg, t)
  {
    if s.pass.AtNow? { ReadsKeep(cfg, s.chain, s.pass.job, s.pass.on, s.chain.now, s.late); }
    Quiet(cfg, s, t.pass, s.calls, t.late);
  }

  lemma ReportKeeps(cfg: Config, s: State, t: State)
    requires cfg.chunk > 0 && Inv(cfg, s) && PassStep(cfg, s, t)
    requires s.pass.AtVetoed? || s.pass.AtPosted? || s.pass.AtMark?
    ensures Inv(cfg, t)
  {
    CallsGrow(cfg, s.calls, t.calls[|s.calls|]);
    if s.pass.AtMark? { MarkKeeps(cfg, s.chain, s.pass.job, s.pass.on, s.pass.now, s.late); }
    Quiet(cfg, s, t.pass, t.calls, t.late);
  }

  lemma PassKeeps(cfg: Config, s: State, t: State)
    requires cfg.chunk > 0 && Inv(cfg, s) && PassStep(cfg, s, t)
    ensures Inv(cfg, t)
  {
    if s.pass.AtVetoed? || s.pass.AtPosted? || s.pass.AtMark? { ReportKeeps(cfg, s, t); }
    else if s.pass.AtPost? { PostKeeps(cfg, s, t); }
    else if s.pass.AtFinalize? { FinalizeKeeps(cfg, s, t); }
    else if s.pass.AtFlags? { FlagsKeep(cfg, s, t); }
    else if s.pass.AtClaim? { if s.pass.rest == [] { LastKeeps(cfg, s, t); } else { ClaimKeeps(cfg, s, t); } }
    else if s.pass.AtSettled? { SettleKeeps(cfg, s, t); }
    else { ReadKeeps(cfg, s, t); }
  }

  lemma EnvKeeps(cfg: Config, s: State, t: State)
    requires cfg.chunk > 0 && Inv(cfg, s) && EnvTx(cfg, s.chain, t.chain) && t == s.(chain := t.chain)
    ensures Inv(cfg, t)
  {
    EnvMoves(cfg, s.chain, t.chain, s.settled);
    LocalSurvives(cfg, s.chain, t.chain, s.pass, s.late);
  }

  /** A transaction of a dead pass, other than a post, moves the chain as anyone's would. */
  lemma MineMoves(cfg: Config, c: Chain, d: Chain, tx: Tx, settled: bool)
    requires ChainOk(c) && !tx.LatePost? && Mine(cfg.ps, c, tx) == Some(d)
    ensures Moves(c, d) && AtMost(MeasureOf(d, settled), MeasureOf(c, settled))
  {
    if tx.LateFinalize? { FinalizeMoves(cfg.ps, c, d); } else { ClaimsMove(cfg.ps, c, tx.entries, d); }
  }

  lemma ClaimsMove(ps: Params, c: Chain, entries: seq<WeiLeaf>, d: Chain)
    requires ChainOk(c) && ClaimForTx(ps, c, entries) == Some(d)
    ensures Moves(c, d) && MeasureOf(d, true).stage == MeasureOf(c, true).stage
      && MeasureOf(d, true).open <= MeasureOf(c, true).open
  {
    ClaimForStep(ps, c, entries, d);
    ClaimForKeeps(ps, c, entries, d);
  }

  lemma {:induction false} ClaimForKeeps(ps: Params, c: Chain, entries: seq<WeiLeaf>, d: Chain)
    requires ClaimForTx(ps, c, entries) == Some(d)
    ensures d.status == c.status && d.root == c.root && d.posted == c.posted && d.postedAt == c.postedAt
      && d.finalizedAt == c.finalizedAt
    decreases |entries|
  {
    if entries != [] { ClaimForKeeps(ps, ClaimTx(ps, c, entries[0]).value, entries[1..], d); }
  }

  lemma MineKeeps(cfg: Config, s: State, t: State, k: nat)
    requires cfg.chunk > 0 && Inv(cfg, s) && MineStep(cfg, s, t, k)
    ensures Inv(cfg, t)
  {
    var tx := s.pending[k];
    var d := Mine(cfg.ps, s.chain, tx);
    if d.Some? {
      if tx.LatePost? {
        LocalOvertaken(cfg, s.chain, d.value, s.pass, s.late);
        assert forall x: Word :: FlagsOf(d.value, x) == FlagsOf(s.chain, x);
      } else {
        MineMoves(cfg, s.chain, d.value, tx, s.settled);
        LocalSurvives(cfg, s.chain, d.value, s.pass, s.late);
      }
    }
  }

  lemma VetoKeeps(cfg: Config, s: State, t: State)
    requires cfg.chunk > 0 && Inv(cfg, s) && VetoTx(cfg.ps, s.chain) == Some(t.chain)
      && t == s.(chain := t.chain, vetoed := true)
    ensures Inv(cfg, t)
  {
    VetoMoves(cfg.ps, s.chain, t.chain);
    LocalSurvives(cfg, s.chain, t.chain, s.pass, s.late);
  }

  lemma BeginsKeeps(cfg: Config, s: State, t: State)
    requires Inv(cfg, s) && Begins(cfg, s, t)
    ensures Inv(cfg, t)
  {
    var p :| Prepare(cfg, p) == Some(t.pass.job);
  }

  /** A pass that dies leaves at most its transaction behind. */
  lemma DeathKeeps(cfg: Config, s: State, lost: seq<Tx>)
    requires Inv(cfg, s) && (lost == [] || lost == InFlight(s.pass))
    ensures Inv(cfg, s.(pass := Idle, pending := s.pending + lost))
  {
  }

  lemma StepKeeps(cfg: Config, s: State, t: State)
    requires cfg.chunk > 0 && Inv(cfg, s) && Step(cfg, s, t)
    ensures Inv(cfg, t)
  {
    if Begins(cfg, s, t) { BeginsKeeps(cfg, s, t); } else { ProceedsKeeps(cfg, s, t); }
  }

  lemma ProceedsKeeps(cfg: Config, s: State, t: State)
    requires cfg.chunk > 0 && Inv(cfg, s) && Proceeds(cfg, s, t)
    ensures Inv(cfg, t)
  {
    if PassStep(cfg, s, t) {
      PassKeeps(cfg, s, t);
    } else if t == s.(pass := Idle) {
      assert s.pending + [] == s.pending;
      DeathKeeps(cfg, s, []);
    } else if t == s.(pass := Idle, pending := s.pending + InFlight(s.pass)) {
      DeathKeeps(cfg, s, InFlight(s.pass));
    } else if k: nat :| MineStep(cfg, s, t, k) {
      MineKeeps(cfg, s, t, k);
    } else if k: nat :| DropStep(s, t, k) {
      assert GoodPosts(cfg, t.pending);
    } else if EnvTx(cfg, s.chain, t.chain) && t == s.(chain := t.chain) {
      EnvKeeps(cfg, s, t);
    } else if VetoTx(cfg.ps, s.chain) == Some(t.chain) && t == s.(chain := t.chain, vetoed := true) {
      VetoKeeps(cfg, s, t);
    }
  }

  lemma {:induction false} RunKeeps(cfg: Config, run: seq<State>, i: nat)
    requires IsRun(cfg, run) && i < |run|
    ensures Inv(cfg, run[i])
  {
    if i > 0 {
      RunKeeps(cfg, run, i - 1);
      StepKeeps(cfg, run[i - 1], run[i]);
    }
  }

  /**
   Over every run, however its passes die and whenever their transactions are mined: an epoch is posted only with the
   rebuilt root and the sums of its leaves, and reported settled only when every nonzero lane A of them is claimed and
   every nonzero lane B claimed or void. It is not posted with the root the chain holds as vetoed, unless a late post
   was mined since the pass read the epoch.
   */
  lemma CallsAreGood(cfg: Config, run: seq<State>, i: nat, k: nat)
    requires IsRun(cfg, run) && i < |run| && k < |run[i].calls|
    ensures GoodCall(cfg, run[i].calls[k])
  {
    RunKeeps(cfg, run, i);
  }

  /** A pass that ends as posted, finalized or claimed, with no veto since it began, has lowered the measure. */
  lemma PassesAdvance(cfg: Config, run: seq<State>, i: nat)
    requires IsRun(cfg, run) && i < |run| && run[i].pass.Done? && !run[i].vetoed
    requires var o := run[i].pass.outcome; o.PostedOut? || o.FinalizedOut? || o.ClaimedOut?
    ensures Less(MeasureOf(run[i].chain, run[i].settled), run[i].start)
  {
    RunKeeps(cfg, run, i);
  }

  // ---- Payments, with one leaf per account ----

  /** Equal roots mean the same leaves, and no list names an account twice. */
  ghost predicate Binding(cfg: Config) {
    && (forall x, y :: x in cfg.known && y in cfg.known && cfg.rootOf(x) == cfg.rootOf(y) ==>
        forall l :: l in x <==> l in y)
    && forall x :: x in cfg.known ==> OneLeafEach(x)
  }

  ghost function KnownInputs(cfg: Config, keccak: Keccak): set<seq<Word>> {
    set x, q | x in cfg.known && x != [] && q in RootInputs(keccak, cfg.ps.epoch, x) :: q
  }

  /**
   Roots are those of the trees over the leaves, no input hashed for a known list collides with another, no tree has the
   root 0 of an empty epoch, and no list names an account twice.
   */
  ghost predicate RealTree(cfg: Config, keccak: Keccak) {
    && (forall x :: x in cfg.known ==> cfg.rootOf(x) == RootOf(keccak, cfg.ps.epoch, x) && OneLeafEach(x))
    && (forall x :: x in cfg.known && x != [] ==> cfg.rootOf(x) != 0)
    && CollisionFree(keccak, KnownInputs(cfg, keccak))
  }

  lemma RealTreeBinds(cfg: Config, keccak: Keccak)
    requires RealTree(cfg, keccak)
    ensures Binding(cfg)
  {
    forall x, y | x in cfg.known && y in cfg.known && cfg.rootOf(x) == cfg.rootOf(y)
      ensures forall l :: l in x <==> l in y
    {
      if x != [] && y != [] {
        RootBindsLeaves(keccak, cfg.ps.epoch, x, y, KnownInputs(cfg, keccak));
        assert forall l :: l in x <==> l in multiset(x);
      }
    }
  }

  lemma FinalizeConserves(ps: Params, c: Chain, d: Chain)
    requires ChainOk(c) && FinalizeTx(ps, c) == Some(d)
    ensures Conserved(d)
  {
    NothingPaid(d);
  }

  lemma EnvConserves(cfg: Config, c: Chain, d: Chain)
    requires ChainOk(c) && Conserved(c) && (c.status.Finalized? ==> OneLeafEach(c.posted)) && EnvTx(cfg, c, d)
    ensures Conserved(d)
  {
    if now: nat :| now >= c.now && d == c.(now := now) {
      SumOfSame(c.posted, PaidA(d), PaidA(c));
      SumOfSame(c.posted, PaidB(d), PaidB(c));
    } else if FinalizeTx(cfg.ps, c) == Some(d) {
      FinalizeConserves(cfg.ps, c, d);
    } else if l :| ClaimTx(cfg.ps, c, l) == Some(d) {
      ClaimConserves(cfg.ps, c, l, d);
    } else {
      var l :| ClawTx(cfg.ps, c, l) == Some(d);
      ClawStep(cfg.ps, c, l, d);
    }
  }

  lemma PassConserves(cfg: Config, s: State, t: State)
    requires cfg.chunk > 0 && PassStep(cfg, s, t) && ChainOk(s.chain) && Conserved(s.chain)
      && (s.chain.status.Finalized? ==> OneLeafEach(s.chain.posted))
    ensures Conserved(t.chain)
  {
    if s.pass.AtFinalize? { FinalizeConserves(cfg.ps, s.chain, t.chain); }
    else if s.pass.AtClaim? && s.pass.rest != [] { ClaimForStep(cfg.ps, s.chain, s.pass.rest[0], t.chain); }
  }

  lemma MineConserves(cfg: Config, s: State, t: State, k: nat)
    requires MineStep(cfg, s, t, k) && ChainOk(s.chain) && Conserved(s.chain)
    requires s.chain.status.Finalized? ==> OneLeafEach(s.chain.posted)
    ensures Conserved(t.chain)
  {
    var tx := s.pending[k];
    if t.chain != s.chain {
      if tx.LateFinalize? { FinalizeConserves(cfg.ps, s.chain, t.chain); }
      else if tx.LateClaim? && tx.entries != [] { ClaimForStep(cfg.ps, s.chain, tx.entries, t.chain); }
    }
  }

  lemma StepConserves(cfg: Config, s: State, t: State)
    requires cfg.chunk > 0 && Binding(cfg) && Inv(cfg, s) && Step(cfg, s, t) && Conserved(s.chain)
    ensures Conserved(t.chain)
  {
    if PassStep(cfg, s, t) { PassConserves(cfg, s, t); }
    else if k: nat :| MineStep(cfg, s, t, k) { MineConserves(cfg, s, t, k); }
    else if EnvTx(cfg, s.chain, t.chain) { EnvConserves(cfg, s.chain, t.chain); }
  }

  ghost predicate Paid(s: State) { Conserved(s.chain) && forall k :: 0 <= k < |s.calls| ==> PaidCall(s.calls[k]) }

  lemma {:induction false} RunPays(cfg: Config, run: seq<State>, i: nat)
    requires IsRun(cfg, run) && Binding(cfg) && i < |run|
    ensures Inv(cfg, run[i]) && Paid(run[i])
  {
    if i > 0 {
      RunPays(cfg, run, i - 1);
      StepPays(cfg, run[i - 1], run[i]);
    }
  }

  lemma StepPays(cfg: Config, s: State, t: State)
    requires cfg.chunk > 0 && Binding(cfg) && Inv(cfg, s) && Step(cfg, s, t) && Paid(s)
    ensures Inv(cfg, t) && Paid(t)
  {
    StepKeeps(cfg, s, t);
    StepConserves(cfg, s, t);
    NewCallPaid(cfg, s, t);
  }

  /** Over every run what was minted is what the flags say, and what is reported settled was paid in full. */
  lemma RunConserves(cfg: Config, keccak: Keccak, run: seq<State>, i: nat)
    requires IsRun(cfg, run) && RealTree(cfg, keccak) && i < |run|
    ensures Conserved(run[i].chain) && forall k :: 0 <= k < |run[i].calls| ==> PaidCall(run[i].calls[k])
  {
    RealTreeBinds(cfg, keccak);
    RunPays(cfg, run, i);
  }

  /** The epoch has the job's totals; lane A was minted in full, and lane B in full but for what the guardian voided. */
  ghost predicate PaidInFull(c: Chain, job: Job) {
    && c.mintedA == c.totalA == job.totalA && c.totalB == job.totalB
    && c.mintedB + SumOf(c.posted, VoidB(c)) == c.totalB
  }

  /** A settled report met an epoch paid in full, unless a late post had replaced the root the pass read. */
  ghost predicate PaidCall(call: Call) {
    call.SettledCall? && (!call.late || call.at.root == call.job.root) ==> PaidInFull(call.at, call.job)
  }

  lemma NothingPaid(d: Chain)
    requires d.flags == map[]
    ensures SumOf(d.posted, PaidA(d)) == 0 && SumOf(d.posted, PaidB(d)) == 0
  {
    SumOfSame(d.posted, PaidA(d), (_: WeiLeaf) => 0);
    SumOfSame(d.posted, PaidB(d), (_: WeiLeaf) => 0);
    SumOfZero(d.posted);
  }

  lemma {:induction false} SumOfZero(leaves: seq<WeiLeaf>)
    ensures SumOf(leaves, (_: WeiLeaf) => 0) == 0
  {
    if leaves != [] { SumOfZero(leaves[..|leaves| - 1]); }
  }

  lemma NewCallPaid(cfg: Config, s: State, t: State)
    requires cfg.chunk > 0 && Binding(cfg) && Inv(cfg, s) && Conserved(s.chain) && Step(cfg, s, t)
    requires forall k :: 0 <= k < |s.calls| ==> PaidCall(s.calls[k])
    ensures forall k :: 0 <= k < |t.calls| ==> PaidCall(t.calls[k])
  {
    if PassStep(cfg, s, t) {
      NewCall(cfg, s, t);
      if s.pass.AtSettled? && s.chain.root == s.pass.job.root { SettledIsPaid(cfg, s.chain, s.pass.job); }
    } else {
      assert t.calls == s.calls;
    }
  }

  lemma NewCall(cfg: Config, s: State, t: State)
    requires cfg.chunk > 0 && PassStep(cfg, s, t)
    ensures t.calls == s.calls || exists call ::
      t.calls == s.calls + [call]
        && (call.SettledCall? ==> s.pass.AtSettled? && call == SettledCall(s.pass.job, s.chain, s.late))
  {
    assert t.calls == s.calls || t.calls == s.calls + [t.calls[|s.calls|]];
  }

  lemma SettledIsPaid(cfg: Config, c: Chain, job: Job)
    requires Binding(cfg) && ChainOk(c) && Conserved(c) && GoodJob(cfg, job)
    requires FinalFor(c, job, false) && AllSettled(c, job.leaves)
    requires c.posted in cfg.known && c.root == cfg.rootOf(c.posted)
    ensures PaidInFull(c, job)
  {
    assert forall l :: l in c.posted <==> l in job.leaves;
    SettledMintsAll(c);
    SumLanesIsSum(c.posted);
    SumLanesIsSum(job.leaves);
    SameLeavesSameSum(c.posted, job.leaves, LaneA());
    SameLeavesSameSum(c.posted, job.leaves, LaneB());
  }

  /** Two lists of the same leaves, one per account, have the same sums. */
  lemma {:induction false} SameLeavesSameSum(x: seq<WeiLeaf>, y: seq<WeiLeaf>, f: WeiLeaf -> int)
    requires OneLeafEach(x) && OneLeafEach(y) && forall l :: l in x <==> l in y
    ensures SumOf(x, f) == SumOf(y, f)
  {
    assert y == [] || y[0] in x;
    if x != [] {
      var n, last := |x| - 1, x[|x| - 1];
      assert last in y;
      var k :| 0 <= k < |y| && y[k] == last;
      var y' := y[..k] + y[k + 1..];
      SumOfWithout(y, f, k);
      assert OneLeafEach(y');
      forall l ensures l in x[..n] <==> l in y' {
        LeavesWithout(x, n, l);
        LeavesWithout(y, k, l);
        assert x[..n] + x[n + 1..] == x[..n];
      }
      SameLeavesSameSum(x[..n], y', f);
    }
  }

  lemma LeavesWithout(x: seq<WeiLeaf>, k: nat, l: WeiLeaf)
    requires OneLeafEach(x) && k < |x|
    ensures l in x[..k] + x[k + 1..] <==> l in x && l != x[k]
  {
    if l in x && l != x[k] {
      var j :| 0 <= j < |x| && x[j] == l;
      assert (x[..k] + x[k + 1..])[if j < k then j else j - 1] == l;
    }
  }

  lemma {:induction false} SumOfWithout(x: seq<WeiLeaf>, f: WeiLeaf -> int, k: nat)
    requires k < |x|
    ensures SumOf(x, f) == SumOf(x[..k] + x[k + 1..], f) + f(x[k])
  {
    var n := |x| - 1;
    if k < n {
      SumOfWithout(x[..n], f, k);
      assert x[..n][..k] == x[..k];
      assert (x[..k] + x[k + 1..])[..n - 1] == x[..n][..k] + x[..n][k + 1..];
    } else {
      assert x[..k] + x[k + 1..] == x[..n];
    }
  }

  // ---- A pass left alone settles a vested epoch ----

  predicate Claimable(ps: Params, c: Chain, l: WeiLeaf) {
    l in c.posted && (OpenA(c, l) || (OpenB(c, l) && Vested(ps, c)))
  }

  /** The mint caps never stop a claim of an open lane. */
  lemma ClaimSucceeds(ps: Params, c: Chain, l: WeiLeaf)
    requires ChainOk(c) && Conserved(c) && c.status.Finalized? && OneLeafEach(c.posted) && Claimable(ps, c, l)
    ensures ClaimTx(ps, c, l).Some?
  {
    SumLanesIsSum(c.posted);
    var a := (x: WeiLeaf) => if x.account == l.account then x.laneA else PaidA(c)(x);
    var b := (x: WeiLeaf) => if x.account == l.account then x.laneB else PaidB(c)(x);
    SumOfPoint(c.posted, PaidA(c), a, l);
    SumOfPoint(c.posted, PaidB(c), b, l);
    SumOfMono(c.posted, a, LaneA());
    SumOfMono(c.posted, b, LaneB());
  }

  lemma {:induction false} ClaimForSucceeds(ps: Params, c: Chain, entries: seq<WeiLeaf>)
    requires ChainOk(c) && Conserved(c) && c.status.Finalized? && OneLeafEach(c.posted) && OneLeafEach(entries)
    requires forall l :: l in entries ==> Claimable(ps, c, l)
    ensures ClaimForTx(ps, c, entries).Some?
    decreases |entries|
  {
    if entries != [] {
      ClaimSucceeds(ps, c, entries[0]);
      var m := ClaimTx(ps, c, entries[0]).value;
      ClaimStep(ps, c, entries[0], m);
      ClaimConserves(ps, c, entries[0], m);
      forall l | l in entries[1..] ensures Claimable(ps, m, l) {
        var k :| 0 < k < |entries| && entries[k] == l;
        assert entries[0].account != entries[k].account && Claimable(ps, c, l);
      }
      ClaimForSucceeds(ps, m, entries[1..]);
    }
  }

  /** The claim loop over the batches, when nothing else happens. */
  function ClaimBatches(ps: Params, c: Chain, batches: seq<seq<WeiLeaf>>): Option<Chain>
    decreases |batches|
  {
    if batches == [] then Some(c) else
    var tx := ClaimForTx(ps, c, batches[0]);
    if tx.None? then Option.None else ClaimBatches(ps, tx.value, batches[1..])
  }

  lemma {:induction false} ClaimForConcat(ps: Params, c: Chain, x: seq<WeiLeaf>, y: seq<WeiLeaf>)
    ensures ClaimForTx(ps, c, x + y) == var m := ClaimForTx(ps, c, x);
      if m.None? then Option.None else ClaimForTx(ps, m.value, y)
    decreases |x|
  {
    if x == [] {
      assert x + y == y;
    } else {
      assert (x + y)[1..] == x[1..] + y;
      var m := ClaimTx(ps, c, x[0]);
      if m.Some? { ClaimForConcat(ps, m.value, x[1..], y); }
    }
  }

  /** Batching does not change what is claimed. */
  lemma {:induction false} BatchesAreOneClaim(ps: Params, c: Chain, batches: seq<seq<WeiLeaf>>)
    ensures ClaimBatches(ps, c, batches) == ClaimForTx(ps, c, Flatten(batches))
    decreases |batches|
  {
    if batches != [] {
      ClaimForConcat(ps, c, batches[0], Flatten(batches[1..]));
      var tx := ClaimForTx(ps, c, batches[0]);
      if tx.Some? { BatchesAreOneClaim(ps, tx.value, batches[1..]); }
    }
  }

  lemma {:induction false} NeededOneEach(leaves: seq<WeiLeaf>, c: Chain, vested: bool)
    requires OneLeafEach(leaves)
    ensures OneLeafEach(Needed(leaves, c, vested))
  {
    if leaves != [] {
      var n := |leaves| - 1;
      NeededOneEach(leaves[..n], c, vested);
      var e := Needed(leaves[..n], c, vested);
      forall i | 0 <= i < |e| ensures e[i].account != leaves[n].account {
        assert e[i] in e;
        var k :| 0 <= k < n && leaves[..n][k] == e[i];
        assert leaves[k].account != leaves[n].account;
      }
    }
  }
}
