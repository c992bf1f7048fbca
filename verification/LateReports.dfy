/**
 What a lost post does to the reports a pass makes to the API (keeper/src/run.ts:118-127, 147, 156-159): it can land
 between the pass's reading and its report, which then speaks of a root the chain does not hold. This module says
 exactly when, for reports of a veto and of a post; `LateSettlements` does for a settlement.
 */
module LateReports {
  import opened KeeperTree
  import opened Settlement
  import opened Keeper
  import opened LatePosts

  // ---- A pass about to report a veto or a post ----

  /** Some post is lost, or one of another root than `root`. */
  ghost predicate LostAny(s: State) { exists k :: 0 <= k < |s.pending| && s.pending[k].LatePost? }

  ghost predicate LostOther(s: State, root: Word) {
    exists k :: 0 <= k < |s.pending| && s.pending[k].LatePost? && s.pending[k].job.root != root
  }

  /** What stays so while no lost post can land on the epoch. */
  ghost predicate HoldsVeto(job: Job, n: nat, s: State) {
    && !Made(FalseVeto, n, s)
    && match s.pass
       case AtVetoed(j) => j == job && s.chain.status.Vetoed? && s.chain.root == job.root && !LostAny(s)
       case Idle => true
       case Done(_) => true
       case _ => false
  }

  lemma LostAnyBefore(s: State, t: State, k: nat)
    requires k < |s.pending| && t.pending == Without(s.pending, k) && LostAny(t)
    ensures LostAny(s)
  {
    var i :| 0 <= i < |t.pending| && t.pending[i].LatePost?;
    assert s.pending[if i < k then i else i + 1] == t.pending[i];
  }

  lemma LostOtherBefore(s: State, t: State, k: nat, root: Word)
    requires k < |s.pending| && t.pending == Without(s.pending, k) && LostOther(t, root)
    ensures LostOther(s, root)
  {
    var i :| 0 <= i < |t.pending| && t.pending[i].LatePost? && t.pending[i].job.root != root;
    assert s.pending[if i < k then i else i + 1] == t.pending[i];
  }

  lemma EnvKeepsVeto(cfg: Config, c: Chain, d: Chain)
    requires EnvTx(cfg, c, d) && c.status.Vetoed?
    ensures d.status.Vetoed? && d.root == c.root
  {
  }

  lemma MineKeepsVeto(cfg: Config, s: State, t: State, k: nat)
    requires MineStep(cfg, s, t, k) && !s.pending[k].LatePost? && s.chain.status.Vetoed?
    ensures t.chain == s.chain
  {
    NotFinalYet(cfg, s.chain, s.pending[k]);
  }

  lemma ProceedsHoldsVeto(cfg: Config, job: Job, n: nat, s: State, t: State)
    requires cfg.chunk > 0 && HoldsVeto(job, n, s) && Proceeds(cfg, s, t)
    ensures HoldsVeto(job, n, t)
  {
    NotMadeBy(cfg, FalseVeto, n, s, t);
    if s.pass.AtVetoed? && !PassStep(cfg, s, t) {
      if k: nat :| MineStep(cfg, s, t, k) {
        MineKeepsVeto(cfg, s, t, k);
        if LostAny(t) { LostAnyBefore(s, t, k); }
      } else if k: nat :| DropStep(s, t, k) {
        if LostAny(t) { LostAnyBefore(s, t, k); }
      } else if EnvTx(cfg, s.chain, t.chain) && t == s.(chain := t.chain) {
        EnvKeepsVeto(cfg, s.chain, t.chain);
      }
    }
  }

  /** The call a pass makes in a step, if any. */
  ghost predicate Calls(s: State, call: Call) {
    match s.pass
    case AtPost(job) => call == PostCall(job, s.chain, s.late)
    case AtVetoed(job) => call == VetoedCall(job, s.chain, s.late)
    case AtPosted(job) => call == PostedCall(job, s.chain, s.late)
    case AtMark(job, _, _) => call == PostedCall(job, s.chain, s.late)
    case AtSettled(job, _, _) => call == SettledCall(job, s.chain, s.late)
    case _ => false
  }

  lemma CallsOf(cfg: Config, s: State, t: State)
    requires cfg.chunk > 0 && PassStep(cfg, s, t)
    ensures t.calls == s.calls || exists call :: t.calls == s.calls + [call] && Calls(s, call)
  {
    assert t.calls == s.calls || t.calls == s.calls + [t.calls[|s.calls|]];
  }

  lemma NotMadeBy(cfg: Config, f: Fault, n: nat, s: State, t: State)
    requires cfg.chunk > 0 && Proceeds(cfg, s, t) && !Made(f, n, s)
    requires forall call :: Calls(s, call) ==> !IsFault(f, call)
    ensures !Made(f, n, t)
  {
    if PassStep(cfg, s, t) { CallsOf(cfg, s, t); }
    NotMade(f, n, s, t);
  }

  lemma {:induction false} StaysVeto(cfg: Config, job: Job, s: State, run: seq<State>, i: nat)
    requires Continues(cfg, s, run) && HoldsVeto(job, |s.calls|, s) && i < |run|
    ensures HoldsVeto(job, |s.calls|, run[i])
  {
    if i > 0 {
      StaysVeto(cfg, job, s, run, i - 1);
      ProceedsHoldsVeto(cfg, job, |s.calls|, run[i - 1], run[i]);
    }
  }

  /**
   A pass that read the vetoed root and is about to report the veto can report it of an epoch that holds it no longer if
   and only if some lost post is still out.
   */
  lemma VetoReportIff(cfg: Config, before: seq<State>, s: State, job: Job)
    requires IsRun(cfg, before) && s == Last(before)
    requires s.pass == AtVetoed(job) && s.chain.status.Vetoed? && s.chain.root == job.root
    ensures CanMake(cfg, s, FalseVeto) <==> LostAny(s)
    ensures CanMake(cfg, s, FalseVeto) ==> CanMakeInOrder(cfg, s, FalseVeto)
  {
    if LostAny(s) {
      RunInWindow(cfg, before, |before| - 1);
      var k :| 0 <= k < |s.pending| && s.pending[k].LatePost?;
      var run := Land(cfg, s, k);
      var t := Last(run);
      var u := t.(pass := Done(MarkedVetoed), calls := t.calls + [VetoedCall(job, t.chain, t.late)]);
      assert PassStep(cfg, t, u);
      run := Then(cfg, s, run, u);
      assert IsFault(FalseVeto, u.calls[|s.calls|]);
      InOrderCan(cfg, s, FalseVeto);
    } else {
      forall run | Continues(cfg, s, run) ensures !Made(FalseVeto, |s.calls|, Last(run)) {
        StaysVeto(cfg, job, s, run, |run| - 1);
      }
    }
  }

  /** The epoch's root can no longer change, or only to the job's. */
  ghost predicate Fixed(ps: Params, job: Job, s: State) {
    && !s.chain.status.None? && s.chain.root == job.root
    && (s.chain.status.Finalized? || (s.chain.status.Posted? && !Vetoable(ps, s.chain)) || !LostOther(s, job.root))
  }

  lemma EnvFixed(cfg: Config, job: Job, s: State, t: State)
    requires EnvTx(cfg, s.chain, t.chain) && t == s.(chain := t.chain) && Fixed(cfg.ps, job, s)
    ensures Fixed(cfg.ps, job, t)
  {
  }

  lemma MineFixed(cfg: Config, job: Job, s: State, t: State, k: nat)
    requires MineStep(cfg, s, t, k) && Fixed(cfg.ps, job, s)
    ensures Fixed(cfg.ps, job, t)
  {
    if LostOther(t, job.root) { LostOtherBefore(s, t, k, job.root); }
    if s.pending[k].LateClaim? && t.chain != s.chain {
      ClaimForKeeps(cfg.ps, s.chain, s.pending[k].entries, t.chain);
      FinalStays(cfg.ps, s.chain, s.pending[k].entries);
    }
  }

  /** Only a final epoch can be claimed from. */
  lemma FinalStays(ps: Params, c: Chain, entries: seq<WeiLeaf>)
    requires ClaimForTx(ps, c, entries).Some? && ClaimForTx(ps, c, entries).value != c
    ensures c.status.Finalized?
  {
    if entries != [] { assert ClaimTx(ps, c, entries[0]).Some?; }
  }

  lemma OtherFixed(cfg: Config, job: Job, s: State, t: State)
    requires cfg.chunk > 0 && Proceeds(cfg, s, t) && !PassStep(cfg, s, t) && Fixed(cfg.ps, job, s) && !t.pass.Idle?
    ensures Fixed(cfg.ps, job, t)
  {
    if k: nat :| MineStep(cfg, s, t, k) {
      MineFixed(cfg, job, s, t, k);
    } else if k: nat :| DropStep(s, t, k) {
      if LostOther(t, job.root) { LostOtherBefore(s, t, k, job.root); }
    } else if EnvTx(cfg, s.chain, t.chain) && t == s.(chain := t.chain) {
      EnvFixed(cfg, job, s, t);
    }
  }

  /** A pass at its report of a post, or past it. */
  ghost predicate HoldsPost(ps: Params, job: Job, n: nat, s: State) {
    !Made(FalsePosted, n, s) && (Reported(s.pass) || (Reporting(s.pass, job) && Fixed(ps, job, s)))
  }

  predicate Reporting(pass: Pass, job: Job) { (pass.AtPosted? || pass.AtMark?) && pass.job == job }

  /** No report of a post can follow. */
  predicate Reported(pass: Pass) {
    || pass.Idle? || pass.Done? || pass.AtFinalize? || pass.AtReread? || pass.AtClaimNow? || pass.AtFlags?
      || pass.AtClaim?
    || pass.AtSettled?
  }

  lemma StaysReported(cfg: Config, job: Job, s: State, t: State)
    requires cfg.chunk > 0 && PassStep(cfg, s, t) && (Reported(s.pass) || Reporting(s.pass, job))
    ensures Reported(t.pass)
  {
  }

  lemma ProceedsHoldsPost(cfg: Config, job: Job, n: nat, s: State, t: State)
    requires cfg.chunk > 0 && HoldsPost(cfg.ps, job, n, s) && Proceeds(cfg, s, t)
    ensures HoldsPost(cfg.ps, job, n, t)
  {
    NotMadeBy(cfg, FalsePosted, n, s, t);
    if PassStep(cfg, s, t) { StaysReported(cfg, job, s, t); }
    else if !Reported(s.pass) && !t.pass.Idle? { OtherFixed(cfg, job, s, t); }
  }

  lemma {:induction false} StaysPost(cfg: Config, job: Job, s: State, run: seq<State>, i: nat)
    requires Continues(cfg, s, run) && HoldsPost(cfg.ps, job, |s.calls|, s) && i < |run|
    ensures HoldsPost(cfg.ps, job, |s.calls|, run[i])
  {
    if i > 0 {
      StaysPost(cfg, job, s, run, i - 1);
      ProceedsHoldsPost(cfg, job, |s.calls|, run[i - 1], run[i]);
    }
  }

  /**
   A pass about to report its root as posted, on an epoch that holds it, can report it of an epoch that holds another if
   and only if a lost post of another root is still out and the epoch is vetoed or can still be.
   */
  lemma PostReportIff(cfg: Config, before: seq<State>, s: State, job: Job)
    requires IsRun(cfg, before) && s == Last(before)
    requires Reporting(s.pass, job) && !s.chain.status.None? && s.chain.root == job.root
    ensures CanMake(cfg, s, FalsePosted)
      <==> LostOther(s, job.root) && (s.chain.status.Vetoed? || Vetoable(cfg.ps, s.chain))
    ensures CanMake(cfg, s, FalsePosted) ==> CanMakeInOrder(cfg, s, FalsePosted)
  {
    RunInWindow(cfg, before, |before| - 1);
    if LostOther(s, job.root) && (s.chain.status.Vetoed? || Vetoable(cfg.ps, s.chain)) {
      var k :| 0 <= k < |s.pending| && s.pending[k].LatePost? && s.pending[k].job.root != job.root;
      var run := Land(cfg, s, k);
      var u := ReportsPost(cfg, Last(run), job);
      run := Then(cfg, s, run, u);
      assert IsFault(FalsePosted, u.calls[|s.calls|]);
      InOrderCan(cfg, s, FalsePosted);
    } else {
      forall run | Continues(cfg, s, run) ensures !Made(FalsePosted, |s.calls|, Last(run)) {
        StaysPost(cfg, job, s, run, |run| - 1);
      }
    }
  }

  lemma ReportsPost(cfg: Config, s: State, job: Job) returns (t: State)
    requires cfg.chunk > 0 && Reporting(s.pass, job)
    ensures PassStep(cfg, s, t) && InFlight(s.pass) == [] && t.calls == s.calls + [PostedCall(job, s.chain, s.late)]
  {
    var next := if s.pass.AtPosted? then Done(PostedOut) else AfterMark(cfg, job, s.pass.on, s.pass.now);
    t := s.(pass := next, calls := s.calls + [PostedCall(job, s.chain, s.late)]);
  }
}
