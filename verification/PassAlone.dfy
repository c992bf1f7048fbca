/**
 What a pass does when it is left alone (keeper/src/run.ts:86-211): from the chain it meets, its calls one after the
 other up to its end, branch by branch.
 */
module PassAlone {
  import opened Wrappers
  import opened Batches
  import opened KeeperTree
  import opened Settlement
  import opened Keeper

  // ---- Steps of the pass only ----

  /** The pass makes its calls one after the other, and nothing else happens. */
  ghost predicate Alone(cfg: Config, s: State, run: seq<State>) {
    && cfg.chunk > 0 && |run| > 0 && run[0] == s
    && forall i {:trigger run[i]} :: 0 < i < |run| ==> PassStep(cfg, run[i - 1], run[i])
  }

  lemma AloneFrom(cfg: Config, s: State, t: State, run: seq<State>) returns (all: seq<State>)
    requires cfg.chunk > 0 && PassStep(cfg, s, t) && Alone(cfg, t, run)
    ensures Alone(cfg, s, all) && all[|all| - 1] == run[|run| - 1]
  {
    all := [s] + run;
    forall i | 0 < i < |all| ensures PassStep(cfg, all[i - 1], all[i]) {
      if i > 1 { assert all[i] == run[i - 1] && all[i - 1] == run[i - 2]; }
    }
  }

  lemma AloneThen(cfg: Config, s: State, run: seq<State>, t: State) returns (all: seq<State>)
    requires Alone(cfg, s, run) && PassStep(cfg, run[|run| - 1], t)
    ensures Alone(cfg, s, all) && all[|all| - 1] == t
  {
    all := run + [t];
  }

  /** Only the answers about escrow and allowance leave a pass a choice. */
  lemma PassDetermined(cfg: Config, s: State, t: State, u: State)
    requires cfg.chunk > 0 && PassStep(cfg, s, t) && PassStep(cfg, s, u) && !s.pass.AtEscrow? && !s.pass.AtAllowance?
    ensures t == u
  {
  }

  // ---- The claims ----

  /** The leaves that have something to claim. */
  function ToClaim(leaves: seq<WeiLeaf>, c: Chain, vested: bool): set<nat> {
    set k | 0 <= k < |leaves| && IsDue(c, leaves[k], vested)
  }

  predicate IsDue(c: Chain, l: WeiLeaf, vested: bool) { OpenA(c, l) || (vested && OpenB(c, l)) }

  lemma {:induction false} NeededCount(leaves: seq<WeiLeaf>, c: Chain, vested: bool)
    ensures |Needed(leaves, c, vested)| == |ToClaim(leaves, c, vested)|
  {
    if leaves == [] {
      assert ToClaim(leaves, c, vested) == {};
    } else {
      var n := |leaves| - 1;
      NeededCount(leaves[..n], c, vested);
      OneMoreToClaim(leaves, leaves[..n], c, vested, n);
    }
  }

  lemma OneMoreToClaim(leaves: seq<WeiLeaf>, rest: seq<WeiLeaf>, c: Chain, vested: bool, n: nat)
    requires n + 1 == |leaves| && rest == leaves[..n]
    ensures |ToClaim(leaves, c, vested)| == |ToClaim(rest, c, vested)| + if IsDue(c, leaves[n], vested) then 1 else 0
  {
    var x, y := ToClaim(leaves, c, vested), ToClaim(rest, c, vested);
    assert n !in y;
    if IsDue(c, leaves[n], vested) { assert x == y + {n}; } else { assert x == y; }
  }

  /** The claim loop, step by step, where the batches succeed: `n` entries are claimed in all. */
  lemma {:induction false} ClaimLoop(
      cfg: Config, s: State, job: Job, rest: seq<seq<WeiLeaf>>, k: nat, vesting: nat, vested: bool, fin: bool, d: Chain,
      n: nat) returns (run: seq<State>)
    requires cfg.chunk > 0 && s.pass == AtClaim(job, rest, k, vesting, vested, fin) && s.chain.root == job.root
    requires ClaimBatches(cfg.ps, s.chain, rest) == Some(d) && n == k + |Flatten(rest)|
    ensures Alone(cfg, s, run) && d.root == s.chain.root
    ensures run[|run| - 1] == s.(chain := d, pass := AtClaim(job, [], n, vesting, vested, fin))
    decreases |rest|
  {
    if rest == [] {
      run := [s];
    } else {
      var m := ClaimForTx(cfg.ps, s.chain, rest[0]).value;
      ClaimForKeeps(cfg.ps, s.chain, rest[0], m);
      var t := s.(chain := m, pass := AtClaim(job, rest[1..], k + |rest[0]|, vesting, vested, fin));
      assert PassStep(cfg, s, t);
      FlattenHead(rest);
      run := ClaimLoop(cfg, t, job, rest[1..], k + |rest[0]|, vesting, vested, fin, d, n);
      run := AloneFrom(cfg, s, t, run);
    }
  }

  lemma FlattenHead<T>(parts: seq<seq<T>>)
    requires parts != []
    ensures |Flatten(parts)| == |parts[0]| + |Flatten(parts[1..])|
  {
  }

  /** Before lane B vests, claims leave it as it is. */
  lemma {:induction false} UnvestedKeepsB(ps: Params, c: Chain, entries: seq<WeiLeaf>, d: Chain, l: WeiLeaf)
    requires ClaimForTx(ps, c, entries) == Some(d) && !Vested(ps, c)
    ensures OpenB(d, l) == OpenB(c, l)
    decreases |entries|
  {
    if entries != [] { UnvestedKeepsB(ps, ClaimTx(ps, c, entries[0]).value, entries[1..], d, l); }
  }

  /**
   What is due of the leaves has been claimed: all of lane A, and of lane B all once it has vested and nothing before.
   */
  ghost predicate ClaimedDue(ps: Params, c: Chain, d: Chain, leaves: seq<WeiLeaf>) {
    forall l :: l in leaves ==> !OpenA(d, l) && OpenB(d, l) == (OpenB(c, l) && !Vested(ps, c))
  }

  lemma ClaimsSucceed(cfg: Config, c: Chain, job: Job)
    requires cfg.chunk > 0 && Binding(cfg) && ChainOk(c) && Conserved(c) && GoodJob(cfg, job)
    requires c.status.Finalized? && c.root == job.root && c.posted in cfg.known && c.root == cfg.rootOf(c.posted)
    ensures var batches := Chunks(Needed(job.leaves, c, Vested(cfg.ps, c)), cfg.chunk);
      var out := ClaimBatches(cfg.ps, c, batches);
      && out.Some? && Grows(c, out.value) && out.value.now == c.now && ClaimedDue(cfg.ps, c, out.value, job.leaves)
      && |Flatten(batches)| == |ToClaim(job.leaves, c, Vested(cfg.ps, c))|
  {
    var entries := Needed(job.leaves, c, Vested(cfg.ps, c));
    NeededOneEach(job.leaves, c, Vested(cfg.ps, c));
    NeededCount(job.leaves, c, Vested(cfg.ps, c));
    ClaimForSucceeds(cfg.ps, c, entries);
    ChunksPartition(entries, cfg.chunk);
    BatchesAreOneClaim(cfg.ps, c, Chunks(entries, cfg.chunk));
    var d := ClaimForTx(cfg.ps, c, entries).value;
    ClaimForStep(cfg.ps, c, entries, d);
    forall l | l in job.leaves ensures !OpenA(d, l) && OpenB(d, l) == (OpenB(c, l) && !Vested(cfg.ps, c)) {
      ClosedStays(c, d, l);
      if !Vested(cfg.ps, c) { UnvestedKeepsB(cfg.ps, c, entries, d, l); }
    }
  }

  /** A pass has ended after `n` claims, with the job reported settled exactly when nothing is left to vest. */
  ghost predicate Concludes(t: State, job: Job, n: nat, fin: bool, before: seq<Call>, wasSettled: bool, late: bool) {
    var done := forall l :: l in job.leaves ==> !OpenB(t.chain, l);
    && t.pass == Done(if fin then FinalizedOut(n, done) else if n == 0 && !done then Waiting else ClaimedOut(n, done))
    && t.calls == (if done then before + [SettledCall(job, t.chain, late)] else before)
    && t.settled == (done || wasSettled)
  }

  /** From the final epoch `c` a pass has claimed all of `job` that is due, and ended. */
  ghost predicate Finishes(
      cfg: Config, c: Chain, t: State, job: Job, fin: bool, before: seq<Call>, wasSettled: bool, late: bool) {
    && t.chain.status.Finalized? && t.chain.root == c.root && ClaimedDue(cfg.ps, c, t.chain, job.leaves)
    && Concludes(t, job, |ToClaim(job.leaves, c, Vested(cfg.ps, c))|, fin, before, wasSettled, late)
  }

  /** From the flags on. */
  lemma FlagsToEnd(cfg: Config, s: State) returns (run: seq<State>)
    requires Binding(cfg) && Inv(cfg, s) && Conserved(s.chain) && cfg.chunk > 0 && s.pass.AtFlags?
    requires s.chain.status.Finalized? && s.chain.root == s.pass.job.root && s.pass.vested == Vested(cfg.ps, s.chain)
    ensures Alone(cfg, s, run)
    ensures Finishes(cfg, s.chain, run[|run| - 1], s.pass.job, s.pass.fin, s.calls, s.settled, s.late)
  {
    var job, c, vested := s.pass.job, s.chain, s.pass.vested;
    ClaimsSucceed(cfg, c, job);
    var batches := Chunks(Needed(job.leaves, c, vested), cfg.chunk);
    var d := ClaimBatches(cfg.ps, c, batches).value;
    var vesting, n := Vesting(job.leaves, c, vested), |Flatten(batches)|;
    var t := s.(pass := AtClaim(job, batches, 0, vesting, vested, s.pass.fin));
    run := AllToEnd(cfg, t, job, batches, vesting, vested, s.pass.fin, d, n);
    run := AloneFrom(cfg, s, t, run);
    VestingIs(cfg.ps, c, d, job.leaves, vested);
    Concluding(cfg, c, d, run[|run| - 1], job, n, vesting, vested, s.pass.fin, s.calls, s.settled, s.late);
  }

  /** The claims of all batches, and the end. */
  lemma AllToEnd(cfg: Config, s: State, job: Job, batches: seq<seq<WeiLeaf>>, vesting: nat, vested: bool, fin: bool,
                 d: Chain, n: nat) returns (run: seq<State>)
    requires cfg.chunk > 0 && s.pass == AtClaim(job, batches, 0, vesting, vested, fin) && s.chain.root == job.root
    requires ClaimBatches(cfg.ps, s.chain, batches) == Some(d) && n == |Flatten(batches)|
    ensures Alone(cfg, s, run) && d.root == s.chain.root
    ensures var done := vesting == 0;
      run[|run| - 1] == s.(chain := d, pass := Ended(fin, n, done), settled := done || s.settled,
                           calls := if done then s.calls + [SettledCall(job, d, s.late)] else s.calls)
  {
    run := ClaimLoop(cfg, s, job, batches, 0, vesting, vested, fin, d, n);
    var more := ClaimsToEnd(cfg, run[|run| - 1]);
    run := Joined(cfg, s, run, more);
  }

  lemma Concluding(cfg: Config, c: Chain, d: Chain, t: State, job: Job, n: nat, vesting: nat, vested: bool, fin: bool,
                   before: seq<Call>, wasSettled: bool, late: bool)
    requires d.status.Finalized? && d.root == c.root && ClaimedDue(cfg.ps, c, d, job.leaves)
      && vested == Vested(cfg.ps, c)
    requires n == |ToClaim(job.leaves, c, vested)| && (vesting == 0 <==> forall l :: l in job.leaves ==> !OpenB(d, l))
    requires t.chain == d && t.pass == Ended(fin, n, vesting == 0) && t.settled == (vesting == 0 || wasSettled)
    requires t.calls == if vesting == 0 then before + [SettledCall(job, d, late)] else before
    ensures Finishes(cfg, c, t, job, fin, before, wasSettled, late)
  {
  }

  /** Nothing is left vesting exactly when nothing of lane B is left open after the claims. */
  lemma VestingIs(ps: Params, c: Chain, d: Chain, leaves: seq<WeiLeaf>, vested: bool)
    requires ClaimedDue(ps, c, d, leaves) && vested == Vested(ps, c)
    ensures Vesting(leaves, c, vested) == 0 <==> forall l :: l in leaves ==> !OpenB(d, l)
  {
  }

  lemma Joined(cfg: Config, s: State, x: seq<State>, y: seq<State>) returns (run: seq<State>)
    requires Alone(cfg, s, x) && Alone(cfg, x[|x| - 1], y)
    ensures Alone(cfg, s, run) && run[|run| - 1] == y[|y| - 1]
  {
    run := x + y[1..];
    forall i | 0 < i < |run| ensures PassStep(cfg, run[i - 1], run[i]) {
      if i >= |x| { assert run[i] == y[i - |x| + 1] && run[i - 1] == y[i - |x|]; }
    }
  }

  /** With the batches worked off, the pass reports if nothing is left vesting. */
  lemma ClaimsToEnd(cfg: Config, s: State) returns (run: seq<State>)
    requires cfg.chunk > 0 && s.pass.AtClaim? && s.pass.rest == []
    ensures Alone(cfg, s, run)
    ensures var t, p, done := run[|run| - 1], s.pass, s.pass.vesting == 0;
      t == s.(pass := Ended(p.fin, p.claims, done), settled := done || s.settled,
              calls := if done then s.calls + [SettledCall(p.job, s.chain, s.late)] else s.calls)
  {
    var p := s.pass;
    if p.vesting == 0 {
      var t := s.(pass := AtSettled(p.job, p.claims, p.fin));
      var u := t.(pass := Ended(p.fin, p.claims, true), settled := true,
        calls := s.calls + [SettledCall(p.job, s.chain, s.late)]);
      assert PassStep(cfg, s, t) && PassStep(cfg, t, u);
      run := [s, t, u];
    } else {
      var t := s.(pass := Ended(p.fin, p.claims, false));
      assert PassStep(cfg, s, t);
      run := [s, t];
    }
  }

  // ---- From the reading on, branch by branch ----

  lemma NowToEnd(cfg: Config, s: State) returns (run: seq<State>)
    requires Binding(cfg) && Inv(cfg, s) && Conserved(s.chain) && cfg.chunk > 0 && s.pass.AtClaimNow?
    requires s.chain.status.Finalized? && s.chain.root == s.pass.job.root
    ensures Alone(cfg, s, run)
    ensures Finishes(cfg, s.chain, run[|run| - 1], s.pass.job, s.pass.fin, s.calls, s.settled, s.late)
  {
    var t := s.(pass := AtFlags(s.pass.job, s.chain.now >= s.pass.vestsAt, s.pass.fin));
    StepKeeps(cfg, s, t);
    run := FlagsToEnd(cfg, t);
    run := AloneFrom(cfg, s, t, run);
  }

  /** What a pass tells the API of an epoch it finds posted, if the API does not know. */
  function Told(job: Job, c: Chain): seq<Call> { if job.apiPosted then [] else [PostedCall(job, c, false)] }

  /** A live epoch of the job's root, read: the pass tells the API if it must, and goes on. */
  lemma ReadsLive(cfg: Config, s: State) returns (run: seq<State>)
    requires cfg.chunk > 0 && Inv(cfg, s) && s.pass.AtNow? && s.pass.on == s.chain && !s.late
    requires (s.chain.status.Posted? || s.chain.status.Finalized?) && s.chain.root == s.pass.job.root
    ensures Alone(cfg, s, run) && Inv(cfg, run[|run| - 1])
    ensures var job, c := s.pass.job, s.chain;
      run[|run| - 1] == s.(pass := AfterMark(cfg, job, c, c.now), calls := s.calls + Told(job, c))
  {
    var job, c := s.pass.job, s.chain;
    var t := s.(pass := AfterReads(cfg, job, c, c.now));
    StepKeeps(cfg, s, t);
    if job.apiPosted {
      assert s.calls + [] == s.calls;
      run := [s, t];
    } else {
      var u := t.(pass := AfterMark(cfg, job, c, c.now), calls := s.calls + [PostedCall(job, c, s.late)]);
      assert PassStep(cfg, t, u);
      StepKeeps(cfg, t, u);
      run := [s, t, u];
    }
  }

  /** A posted epoch whose window has passed is finalized. */
  lemma FinalizeToNow(cfg: Config, s: State) returns (run: seq<State>)
    requires cfg.chunk > 0 && Inv(cfg, s) && Conserved(s.chain) && s.pass.AtFinalize?
    requires s.chain.status.Posted? && s.chain.now >= s.chain.postedAt + cfg.ps.vetoDelay
    ensures Alone(cfg, s, run) && Inv(cfg, run[|run| - 1]) && Conserved(run[|run| - 1].chain)
    ensures var c := s.chain;
      run[|run| - 1] == s.(chain := c.(status := Finalized, finalizedAt := c.now),
                           pass := AtClaimNow(s.pass.job, c.now + cfg.ps.vest, true))
  {
    var c, job := s.chain, s.pass.job;
    var t := s.(chain := c.(status := Finalized, finalizedAt := c.now), pass := AtReread(job));
    var u := t.(pass := AtClaimNow(job, c.now + cfg.ps.vest, true));
    assert PassStep(cfg, s, t) && PassStep(cfg, t, u);
    StepKeeps(cfg, s, t);
    StepKeeps(cfg, t, u);
    FinalizeConserves(cfg.ps, c, t.chain);
    run := [s, t, u];
  }

  /** Where the pass may post: the calls about escrow and allowance answer well, and it posts. */
  lemma ReadsToPosted(cfg: Config, s: State) returns (run: seq<State>)
    requires cfg.chunk > 0 && s.pass.AtNow? && s.pass.on == s.chain && Postable(s.chain, s.pass.job)
    requires Due(cfg, s.chain, s.pass.job)
    ensures Alone(cfg, s, run)
    ensures var t, job, c := run[|run| - 1], s.pass.job, s.chain;
      && PostTx(c, job.leaves, job.root, job.totalA, job.totalB) == Some(t.chain) && t.pass == Done(PostedOut)
      && t.calls == s.calls + [PostCall(job, c, s.late), PostedCall(job, t.chain, false)] && t.settled == s.settled
  {
    var job, c := s.pass.job, s.chain;
    var a, b, d := s.(pass := AtEscrow(job)), s.(pass := AtAllowance(job)), s.(pass := AtPost(job));
    assert PassStep(cfg, s, a) && PassStep(cfg, a, b) && PassStep(cfg, b, d);
    run := PostsAndTells(cfg, d, job);
    run := AloneFrom(cfg, b, d, run);
    run := AloneFrom(cfg, a, b, run);
    run := AloneFrom(cfg, s, a, run);
  }

  lemma PostsAndTells(cfg: Config, s: State, job: Job) returns (run: seq<State>)
    requires cfg.chunk > 0 && s.pass == AtPost(job) && (s.chain.status.None? || s.chain.status.Vetoed?)
    ensures Alone(cfg, s, run)
    ensures var t, c := run[|run| - 1], s.chain;
      && PostTx(c, job.leaves, job.root, job.totalA, job.totalB) == Some(t.chain) && t.pass == Done(PostedOut)
      && t.calls == s.calls + [PostCall(job, c, s.late), PostedCall(job, t.chain, false)] && t.settled == s.settled
  {
    var d := PostTx(s.chain, job.leaves, job.root, job.totalA, job.totalB).value;
    var t := s.(chain := d, pass := AtPosted(job), calls := s.calls + [PostCall(job, s.chain, s.late)], late := false);
    var u := t.(pass := Done(PostedOut), calls := t.calls + [PostedCall(job, d, false)]);
    assert PassStep(cfg, s, t) && PassStep(cfg, t, u);
    assert u.calls == s.calls + [PostCall(job, s.chain, s.late), PostedCall(job, d, false)];
    run := [s, t, u];
  }

  /** Nothing happened but that the pass ended. */
  ghost predicate Stops(s: State, t: State, outcome: Outcome, said: seq<Call>) {
    t.pass == Done(outcome) && t.chain == s.chain && t.calls == s.calls + said && t.settled == s.settled
  }

  /** What a pass alone comes to, from the chain it meets. */
  ghost predicate ComesTo(cfg: Config, s: State, job: Job, t: State) {
    var c := s.chain;
    if c.status.None? || (c.status.Vetoed? && c.root != job.root) then
      if Due(cfg, c, job) then
        && PostTx(c, job.leaves, job.root, job.totalA, job.totalB) == Some(t.chain) && t.pass == Done(PostedOut)
        && t.calls == s.calls + [PostCall(job, c, false), PostedCall(job, t.chain, false)] && t.settled == s.settled
      else
        Stops(s, t, if job.apiPosted || cfg.ps.epoch < cfg.ps.genesisEpoch then Skipped else Waiting, [])
    else if c.status.Vetoed? then
      if job.root == 0 then Stops(s, t, Skipped, []) else Stops(s, t, MarkedVetoed, [VetoedCall(job, c, false)])
    else if c.root != job.root then
      Stops(s, t, Skipped, [])
    else
      LiveComesTo(cfg, c, job, s.calls + Told(job, c), s.settled, t)
  }

  /** The same, from a live epoch with the job's root: wait out the window, or finalize if need be, and claim. */
  ghost predicate LiveComesTo(cfg: Config, c: Chain, job: Job, before: seq<Call>, wasSettled: bool, t: State) {
    if c.status.Posted? && c.now < c.postedAt + cfg.ps.vetoDelay then
      t.pass == Done(Waiting) && t.chain == c && t.calls == before && t.settled == wasSettled
    else
      var f := if c.status.Posted? then c.(status := Finalized, finalizedAt := c.now) else c;
      Finishes(cfg, f, t, job, c.status.Posted?, before, wasSettled, false)
  }

  lemma ReadsToStop(cfg: Config, s: State, outcome: Outcome) returns (run: seq<State>)
    requires cfg.chunk > 0 && s.pass.AtNow? && s.pass.on == s.chain
    requires AfterReads(cfg, s.pass.job, s.chain, s.chain.now) == Done(outcome)
    ensures Alone(cfg, s, run) && Stops(s, run[|run| - 1], outcome, [])
  {
    var t := s.(pass := Done(outcome));
    assert PassStep(cfg, s, t);
    assert s.calls + [] == s.calls;
    run := [s, t];
  }

  lemma ReadsToVetoed(cfg: Config, s: State, job: Job) returns (run: seq<State>)
    requires cfg.chunk > 0 && s.pass == AtNow(job, s.chain)
      && AfterReads(cfg, job, s.chain, s.chain.now) == AtVetoed(job)
    ensures Alone(cfg, s, run) && Stops(s, run[|run| - 1], MarkedVetoed, [VetoedCall(job, s.chain, s.late)])
  {
    var t := s.(pass := AtVetoed(job));
    var u := t.(pass := Done(MarkedVetoed), calls := s.calls + [VetoedCall(job, s.chain, s.late)]);
    assert PassStep(cfg, s, t) && PassStep(cfg, t, u);
    run := [s, t, u];
  }

  lemma PostedToEnd(cfg: Config, s: State, job: Job, c: Chain) returns (run: seq<State>)
    requires Binding(cfg) && cfg.chunk > 0 && Inv(cfg, s) && Conserved(s.chain) && s.pass == AtFinalize(job) && !s.late
    requires c == s.chain && c.status.Posted? && c.root == job.root && c.now >= c.postedAt + cfg.ps.vetoDelay
    ensures Alone(cfg, s, run)
    ensures LiveComesTo(cfg, c, job, s.calls, s.settled, run[|run| - 1])
  {
    run := FinalizeToNow(cfg, s);
    var more := NowToEnd(cfg, run[|run| - 1]);
    run := Joined(cfg, s, run, more);
  }

  lemma MarkToEnd(cfg: Config, s: State, job: Job, c: Chain) returns (run: seq<State>)
    requires Binding(cfg) && cfg.chunk > 0 && Inv(cfg, s) && Conserved(s.chain) && !s.late
    requires c == s.chain && (c.status.Posted? || c.status.Finalized?) && c.root == job.root
    requires s.pass == AfterMark(cfg, job, c, c.now)
    ensures Alone(cfg, s, run)
    ensures LiveComesTo(cfg, c, job, s.calls, s.settled, run[|run| - 1])
  {
    if c.status.Finalized? {
      run := NowToEnd(cfg, s);
    } else if c.now >= c.postedAt + cfg.ps.vetoDelay {
      run := PostedToEnd(cfg, s, job, c);
    } else {
      run := [s];
    }
  }

  lemma LiveToEnd(cfg: Config, s: State, job: Job) returns (run: seq<State>)
    requires Binding(cfg) && cfg.chunk > 0 && Inv(cfg, s) && Conserved(s.chain) && s.pass == AtNow(job, s.chain)
      && !s.late
    requires (s.chain.status.Posted? || s.chain.status.Finalized?) && s.chain.root == job.root
    ensures Alone(cfg, s, run)
    ensures LiveComesTo(cfg, s.chain, job, s.calls + Told(job, s.chain), s.settled, run[|run| - 1])
  {
    run := ReadsLive(cfg, s);
    var more := MarkToEnd(cfg, run[|run| - 1], job, s.chain);
    run := Joined(cfg, s, run, more);
  }

  lemma UnpostedToEnd(cfg: Config, s: State, job: Job) returns (run: seq<State>)
    requires cfg.chunk > 0 && s.pass == AtNow(job, s.chain) && !s.late && Postable(s.chain, job)
    ensures Alone(cfg, s, run) && ComesTo(cfg, s, job, run[|run| - 1])
  {
    if Due(cfg, s.chain, job) {
      run := ReadsToPosted(cfg, s);
    } else {
      var over := !job.apiPosted && cfg.ps.epoch >= cfg.ps.genesisEpoch;
      run := ReadsToStop(cfg, s, if over then Waiting else Skipped);
    }
  }

  lemma NowComesTo(cfg: Config, s: State, job: Job) returns (run: seq<State>)
    requires Binding(cfg) && cfg.chunk > 0 && Inv(cfg, s) && Conserved(s.chain) && s.pass == AtNow(job, s.chain)
      && !s.late
    ensures Alone(cfg, s, run) && ComesTo(cfg, s, job, run[|run| - 1])
  {
    var c := s.chain;
    if (c.status.Posted? || c.status.Finalized?) && c.root == job.root {
      run := LiveToEnd(cfg, s, job);
    } else if Postable(c, job) {
      run := UnpostedToEnd(cfg, s, job);
    } else if c.status.Vetoed? && job.root != 0 {
      run := ReadsToVetoed(cfg, s, job);
    } else {
      run := ReadsToStop(cfg, s, Skipped);
    }
  }

  /**
   In every run, a pass that is left alone from its beginning comes to the end its chain calls for: it posts, waits,
   skips, tells the API of a veto or a post, or finalizes, claims all that is due, and reports the job settled exactly
   when nothing is left to vest. No call of it reverts.
   */
  lemma PassAloneComesTo(cfg: Config, keccak: Keccak, run: seq<State>, i: nat) returns (alone: seq<State>)
    requires IsRun(cfg, run) && RealTree(cfg, keccak) && i < |run| && run[i].pass.AtEpoch?
    ensures Alone(cfg, run[i], alone) && ComesTo(cfg, run[i], run[i].pass.job, alone[|alone| - 1])
  {
    RealTreeBinds(cfg, keccak);
    RunPays(cfg, run, i);
    var s := run[i];
    var t := s.(pass := AtNow(s.pass.job, s.chain), late := false);
    StepKeeps(cfg, s, t);
    alone := NowComesTo(cfg, t, s.pass.job);
    alone := AloneFrom(cfg, s, t, alone);
  }

  /**
   So whenever a pass begins in a run that has come to a final, vested epoch with its job's root, then left alone it
   ends by reporting the job settled, and nothing is left open.
   */
  lemma UndisturbedPassSettles(cfg: Config, keccak: Keccak, run: seq<State>, i: nat) returns (alone: seq<State>)
    requires IsRun(cfg, run) && RealTree(cfg, keccak) && i < |run| && run[i].pass.AtEpoch?
    requires var s := run[i];
      s.chain.status.Finalized? && s.chain.root == s.pass.job.root && Vested(cfg.ps, s.chain)
    ensures Alone(cfg, run[i], alone)
    ensures var t, job := alone[|alone| - 1], run[i].pass.job;
      && t.pass.Done? && t.settled && t.chain.root == job.root && AllSettled(t.chain, job.leaves)
      && t.calls == run[i].calls + Told(job, run[i].chain) + [SettledCall(job, t.chain, false)]
  {
    alone := PassAloneComesTo(cfg, keccak, run, i);
  }
}
