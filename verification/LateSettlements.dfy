/**
 When a pass reports its job settled on an epoch that a lost post of another list has taken since the pass read it
 (keeper/src/run.ts:153-175, 184-211). The pass itself can claim nothing there, so the report comes when the other list
 lets every lane of the job's accounts be closed.
 */
module LateSettlements {
  import opened Wrappers
  import opened KeeperTree
  import opened Settlement
  import opened Keeper
  import opened LatePosts
  import opened LateReports

  // ---- Which lanes a list of leaves lets anyone close ----

  predicate ListsA(posted: seq<WeiLeaf>, account: Word) {
    exists m :: m in posted && m.account == account && m.laneA > 0
  }

  predicate ListsB(posted: seq<WeiLeaf>, account: Word) {
    exists m :: m in posted && m.account == account && m.laneB > 0
  }

  predicate Lists(posted: seq<WeiLeaf>, account: Word) { exists m :: m in posted && m.account == account }

  /** Lane A by a claim, lane B by a claim or, where there is a vesting period, by a claw. */
  predicate Closes(ps: Params, posted: seq<WeiLeaf>, l: WeiLeaf) {
    && (l.laneA > 0 ==> ListsA(posted, l.account))
    && (l.laneB > 0 ==> ListsB(posted, l.account) || (ps.vest > 0 && Lists(posted, l.account)))
  }

  predicate Closable(ps: Params, posted: seq<WeiLeaf>, leaves: seq<WeiLeaf>) {
    forall l :: l in leaves ==> Closes(ps, posted, l)
  }

  // ---- Flags come only from the leaves posted ----

  ghost predicate FlaggedBy(ps: Params, c: Chain, x: Word) {
    var f := FlagsOf(c, x);
    && (f.a ==> ListsA(c.posted, x)) && (f.b ==> ListsB(c.posted, x))
      && (f.isVoid ==> ps.vest > 0 && Lists(c.posted, x))
  }

  ghost predicate Flagged(ps: Params, c: Chain) {
    && (c.status.Finalized? ==> c.finalizedAt <= c.now)
    && (!c.status.Finalized? ==> c.flags == map[])
    && forall x: Word {:trigger FlaggedBy(ps, c, x)} :: FlaggedBy(ps, c, x)
  }

  lemma UnflaggedIsFlagged(ps: Params, c: Chain)
    requires c.flags == map[] && (c.status.Finalized? ==> c.finalizedAt <= c.now)
    ensures Flagged(ps, c)
  {
  }

  lemma ClaimFlags(ps: Params, c: Chain, l: WeiLeaf, d: Chain)
    requires Flagged(ps, c) && ClaimTx(ps, c, l) == Some(d)
    ensures Flagged(ps, d)
  {
    forall x: Word ensures FlaggedBy(ps, d, x) { assert FlaggedBy(ps, c, x); }
  }

  lemma ClawFlags(ps: Params, c: Chain, l: WeiLeaf, d: Chain)
    requires Flagged(ps, c) && ClawTx(ps, c, l) == Some(d)
    ensures Flagged(ps, d)
  {
    forall x: Word ensures FlaggedBy(ps, d, x) { assert FlaggedBy(ps, c, x); }
  }

  lemma {:induction false} ClaimForFlags(ps: Params, c: Chain, entries: seq<WeiLeaf>, d: Chain)
    requires Flagged(ps, c) && ClaimForTx(ps, c, entries) == Some(d)
    ensures Flagged(ps, d)
    decreases |entries|
  {
    if entries != [] {
      var m := ClaimTx(ps, c, entries[0]).value;
      ClaimFlags(ps, c, entries[0], m);
      ClaimForFlags(ps, m, entries[1..], d);
    }
  }

  lemma SameFlags(ps: Params, c: Chain, d: Chain)
    requires Flagged(ps, c) && d == c.(now := d.now, status := d.status, finalizedAt := d.finalizedAt)
    requires (d.status.Finalized? ==> d.finalizedAt <= d.now) && (!d.status.Finalized? ==> !c.status.Finalized?)
    ensures Flagged(ps, d)
  {
    forall x: Word ensures FlaggedBy(ps, d, x) { assert FlaggedBy(ps, c, x); }
  }

  lemma EnvFlags(cfg: Config, c: Chain, d: Chain)
    requires Flagged(cfg.ps, c) && EnvTx(cfg, c, d)
    ensures Flagged(cfg.ps, d)
  {
    if now: nat :| now >= c.now && d == c.(now := now) {
      SameFlags(cfg.ps, c, d);
    } else if FinalizeTx(cfg.ps, c) == Some(d) {
      SameFlags(cfg.ps, c, d);
    } else if l :| ClaimTx(cfg.ps, c, l) == Some(d) {
      ClaimFlags(cfg.ps, c, l, d);
    } else {
      var l :| ClawTx(cfg.ps, c, l) == Some(d);
      ClawFlags(cfg.ps, c, l, d);
    }
  }

  lemma MineFlags(cfg: Config, s: State, t: State, k: nat)
    requires Flagged(cfg.ps, s.chain) && MineStep(cfg, s, t, k)
    ensures Flagged(cfg.ps, t.chain)
  {
    if t.chain != s.chain {
      match s.pending[k]
      case LatePost(_) => UnflaggedIsFlagged(cfg.ps, t.chain);
      case LateFinalize => SameFlags(cfg.ps, s.chain, t.chain);
      case LateClaim(_, entries) => ClaimForFlags(cfg.ps, s.chain, entries, t.chain);
    }
  }

  lemma PassFlags(cfg: Config, s: State, t: State)
    requires cfg.chunk > 0 && Flagged(cfg.ps, s.chain) && PassStep(cfg, s, t)
    ensures Flagged(cfg.ps, t.chain)
  {
    if s.pass.AtPost? { UnflaggedIsFlagged(cfg.ps, t.chain); }
    else if s.pass.AtFinalize? { SameFlags(cfg.ps, s.chain, t.chain); }
    else if s.pass.AtClaim? && s.pass.rest != [] { ClaimForFlags(cfg.ps, s.chain, s.pass.rest[0], t.chain); }
  }

  lemma ProceedsFlags(cfg: Config, s: State, t: State)
    requires cfg.chunk > 0 && Flagged(cfg.ps, s.chain) && Proceeds(cfg, s, t)
    ensures Flagged(cfg.ps, t.chain)
  {
    if PassStep(cfg, s, t) { PassFlags(cfg, s, t); }
    else if k: nat :| MineStep(cfg, s, t, k) { MineFlags(cfg, s, t, k); }
    else if EnvTx(cfg, s.chain, t.chain) { EnvFlags(cfg, s.chain, t.chain); }
    else if VetoTx(cfg.ps, s.chain) == Some(t.chain) { SameFlags(cfg.ps, s.chain, t.chain); }
  }

  /** Where every lane of some leaves is closed, the posted list lets it be. */
  lemma SettledIsClosable(ps: Params, c: Chain, leaves: seq<WeiLeaf>)
    requires Flagged(ps, c) && AllSettled(c, leaves)
    ensures Closable(ps, c.posted, leaves)
  {
    forall l | l in leaves ensures Closes(ps, c.posted, l) { assert FlaggedBy(ps, c, l.account); }
  }

  // ---- Without such a post, or a veto window, the report is of the root read ----

  /** A lost post of another root could be closed under the job. */
  ghost predicate LostCloser(ps: Params, s: State, job: Job) {
    exists k :: 0 <= k < |s.pending| && s.pending[k].LatePost? && Takes(ps, s.pending[k].job, job)
  }

  /** The other job's list, on another root, lets every lane of this one be closed. */
  predicate Takes(ps: Params, other: Job, job: Job) { other.root != job.root && Closable(ps, other.leaves, job.leaves) }

  lemma LostCloserBefore(ps: Params, s: State, t: State, k: nat, job: Job)
    requires k < |s.pending| && t.pending == Without(s.pending, k) && LostCloser(ps, t, job)
    ensures LostCloser(ps, s, job)
  {
    var i :| 0 <= i < |t.pending| && t.pending[i].LatePost? && Takes(ps, t.pending[i].job, job);
    assert s.pending[if i < k then i else i + 1] == t.pending[i];
  }

  /** The pass is on a branch that does not settle. */
  predicate Aside(pass: Pass) {
    || NearPost(pass) || pass.AtVetoed? || pass.AtPosted? || pass.Idle? || pass.Done?
    || (pass.AtNow? && !(pass.on.root == pass.job.root && (pass.on.status.Posted? || pass.on.status.Finalized?)))
  }

  /** The epoch's root can no longer change. */
  ghost predicate Anchored(ps: Params, job: Job, c: Chain) {
    c.root == job.root && (c.status.Finalized? || (c.status.Posted? && !Vetoable(ps, c)))
  }

  /** The epoch holds the job's root or a list that cannot be closed under it, and no other post is lost. */
  ghost predicate Unclosable(ps: Params, job: Job, s: State) {
    && (s.chain.root == job.root || !Closable(ps, s.chain.posted, job.leaves)) && !LostCloser(ps, s, job)
    && Flagged(ps, s.chain)
  }

  ghost predicate Settles(ps: Params, job: Job, n: nat, s: State) {
    && !Made(Elsewhere, n, s)
    && (Aside(s.pass)
      || (!s.pass.AtEpoch? && s.pass.job == job && (Anchored(ps, job, s.chain) || Unclosable(ps, job, s))))
  }

  lemma StaysAside(cfg: Config, s: State, t: State)
    requires cfg.chunk > 0 && PassStep(cfg, s, t) && Aside(s.pass)
    ensures Aside(t.pass)
  {
  }

  lemma StaysOnJob(cfg: Config, s: State, t: State)
    requires cfg.chunk > 0 && PassStep(cfg, s, t) && !Aside(s.pass) && !s.pass.AtEpoch?
    ensures Aside(t.pass) || (!t.pass.AtEpoch? && t.pass.job == s.pass.job)
  {
  }

  lemma PassAnchored(cfg: Config, job: Job, s: State, t: State)
    requires cfg.chunk > 0 && PassStep(cfg, s, t) && !Aside(s.pass) && Anchored(cfg.ps, job, s.chain)
    ensures Anchored(cfg.ps, job, t.chain)
  {
    if s.pass.AtClaim? && s.pass.rest != [] {
      ClaimForKeeps(cfg.ps, s.chain, s.pass.rest[0], t.chain);
      ClaimForNow(cfg.ps, s.chain, s.pass.rest[0], t.chain);
    }
  }

  lemma {:induction false} ClaimForNow(ps: Params, c: Chain, entries: seq<WeiLeaf>, d: Chain)
    requires ClaimForTx(ps, c, entries) == Some(d)
    ensures d.now == c.now
    decreases |entries|
  {
    if entries != [] { ClaimForNow(ps, ClaimTx(ps, c, entries[0]).value, entries[1..], d); }
  }

  lemma PassUnclosable(cfg: Config, job: Job, s: State, t: State)
    requires cfg.chunk > 0 && PassStep(cfg, s, t) && !Aside(s.pass) && Unclosable(cfg.ps, job, s)
    ensures Unclosable(cfg.ps, job, t)
  {
    PassFlags(cfg, s, t);
    if s.pass.AtClaim? && s.pass.rest != [] { ClaimForKeeps(cfg.ps, s.chain, s.pass.rest[0], t.chain); }
  }

  /** The report itself is of the job's root. */
  lemma ReportsRoot(cfg: Config, job: Job, n: nat, s: State, t: State)
    requires cfg.chunk > 0 && Inv(cfg, s) && Settles(cfg.ps, job, n, s) && PassStep(cfg, s, t)
    ensures !Made(Elsewhere, n, t)
  {
    if s.pass.AtSettled? && Unclosable(cfg.ps, job, s) { SettledIsClosable(cfg.ps, s.chain, job.leaves); }
    NotMadeBy(cfg, Elsewhere, n, s, t);
  }

  lemma PassSettles(cfg: Config, job: Job, n: nat, s: State, t: State)
    requires cfg.chunk > 0 && Inv(cfg, s) && Settles(cfg.ps, job, n, s) && PassStep(cfg, s, t)
    ensures Settles(cfg.ps, job, n, t)
  {
    ReportsRoot(cfg, job, n, s, t);
    if Aside(s.pass) {
      StaysAside(cfg, s, t);
    } else {
      StaysOnJob(cfg, s, t);
      if Anchored(cfg.ps, job, s.chain) { PassAnchored(cfg, job, s, t); } else { PassUnclosable(cfg, job, s, t); }
    }
  }

  lemma MineAnchored(cfg: Config, job: Job, s: State, t: State, k: nat)
    requires MineStep(cfg, s, t, k) && Anchored(cfg.ps, job, s.chain)
    ensures Anchored(cfg.ps, job, t.chain)
  {
    if s.pending[k].LateClaim? && t.chain != s.chain {
      ClaimForKeeps(cfg.ps, s.chain, s.pending[k].entries, t.chain);
      ClaimForNow(cfg.ps, s.chain, s.pending[k].entries, t.chain);
    }
  }

  lemma OtherAnchored(cfg: Config, job: Job, s: State, t: State)
    requires cfg.chunk > 0 && Proceeds(cfg, s, t) && !PassStep(cfg, s, t) && Anchored(cfg.ps, job, s.chain)
    ensures Anchored(cfg.ps, job, t.chain)
  {
    if k: nat :| MineStep(cfg, s, t, k) { MineAnchored(cfg, job, s, t, k); }
  }

  lemma MineUnclosable(cfg: Config, job: Job, s: State, t: State, k: nat)
    requires MineStep(cfg, s, t, k) && Unclosable(cfg.ps, job, s)
    ensures Unclosable(cfg.ps, job, t)
  {
    MineFlags(cfg, s, t, k);
    if LostCloser(cfg.ps, t, job) { LostCloserBefore(cfg.ps, s, t, k, job); }
    if s.pending[k].LatePost? { assert !Takes(cfg.ps, s.pending[k].job, job); }
    if s.pending[k].LateClaim? && t.chain != s.chain {
      ClaimForKeeps(cfg.ps, s.chain, s.pending[k].entries, t.chain);
    }
  }

  lemma EnvUnclosable(cfg: Config, job: Job, s: State, t: State)
    requires EnvTx(cfg, s.chain, t.chain) && t == s.(chain := t.chain) && Unclosable(cfg.ps, job, s)
    ensures Unclosable(cfg.ps, job, t)
  {
    EnvFlags(cfg, s.chain, t.chain);
  }

  lemma OtherUnclosable(cfg: Config, job: Job, s: State, t: State)
    requires cfg.chunk > 0 && Proceeds(cfg, s, t) && !PassStep(cfg, s, t) && Unclosable(cfg.ps, job, s) && !t.pass.Idle?
    ensures Unclosable(cfg.ps, job, t)
  {
    if k: nat :| MineStep(cfg, s, t, k) {
      MineUnclosable(cfg, job, s, t, k);
    } else if k: nat :| DropStep(s, t, k) {
      if LostCloser(cfg.ps, t, job) { LostCloserBefore(cfg.ps, s, t, k, job); }
    } else if EnvTx(cfg, s.chain, t.chain) && t == s.(chain := t.chain) {
      EnvUnclosable(cfg, job, s, t);
    } else {
      SameFlags(cfg.ps, s.chain, t.chain);
    }
  }

  lemma ProceedsSettles(cfg: Config, job: Job, n: nat, s: State, t: State)
    requires cfg.chunk > 0 && Inv(cfg, s) && Settles(cfg.ps, job, n, s) && Proceeds(cfg, s, t)
    ensures Settles(cfg.ps, job, n, t)
  {
    if PassStep(cfg, s, t) {
      PassSettles(cfg, job, n, s, t);
    } else {
      NotMade(Elsewhere, n, s, t);
      if !Aside(s.pass) && !t.pass.Idle? {
        if Anchored(cfg.ps, job, s.chain) { OtherAnchored(cfg, job, s, t); } else { OtherUnclosable(cfg, job, s, t); }
      }
    }
  }

  lemma {:induction false} StaysSettles(cfg: Config, job: Job, s: State, run: seq<State>, i: nat)
    requires Continues(cfg, s, run) && Inv(cfg, s) && Settles(cfg.ps, job, |s.calls|, s) && i < |run|
    ensures Inv(cfg, run[i]) && Settles(cfg.ps, job, |s.calls|, run[i])
  {
    if i > 0 {
      StaysSettles(cfg, job, s, run, i - 1);
      StepKeeps(cfg, run[i - 1], run[i]);
      ProceedsSettles(cfg, job, |s.calls|, run[i - 1], run[i]);
    }
  }

  // ---- With them, the other list's lanes can be closed, and the job reported settled ----

  function OpenAmountA(c: Chain): WeiLeaf -> int { (l: WeiLeaf) => if OpenA(c, l) then l.laneA else 0 }
  function OpenAmountB(c: Chain): WeiLeaf -> int { (l: WeiLeaf) => if OpenB(c, l) then l.laneB else 0 }

  /** What is still open fits under the mint caps. */
  ghost predicate HasRoom(c: Chain) {
    && c.mintedA + SumOf(c.posted, OpenAmountA(c)) <= c.totalA
    && c.mintedB + SumOf(c.posted, OpenAmountB(c)) <= c.totalB
  }

  /** One leaf's value falling lowers the sum by at least as much. */
  lemma {:induction false} SumOfDrop(leaves: seq<WeiLeaf>, f: WeiLeaf -> int, g: WeiLeaf -> int, x: WeiLeaf)
    requires x in leaves && forall l :: l in leaves ==> g(l) <= f(l)
    ensures SumOf(leaves, g) <= SumOf(leaves, f) - (f(x) - g(x))
  {
    var n := |leaves| - 1;
    var rest := leaves[..n];
    assert leaves == rest + [leaves[n]];
    if x in rest { SumOfDrop(rest, f, g, x); } else { SumOfMono(rest, g, f); }
  }

  lemma {:induction false} SumOfAtLeast(leaves: seq<WeiLeaf>, f: WeiLeaf -> int, x: WeiLeaf)
    requires x in leaves && forall l :: l in leaves ==> 0 <= f(l)
    ensures f(x) <= SumOf(leaves, f)
  {
    SumOfDrop(leaves, f, (_: WeiLeaf) => 0, x);
    SumOfZero(leaves);
  }

  lemma FreshHasRoom(c: Chain)
    requires c.flags == map[] && c.mintedA == 0 && c.mintedB == 0 && (c.totalA, c.totalB) == SumLanes(c.posted)
    ensures HasRoom(c)
  {
    SumLanesIsSum(c.posted);
    SumOfSame(c.posted, OpenAmountA(c), LaneA());
    SumOfSame(c.posted, OpenAmountB(c), LaneB());
  }

  /** With room, a leaf's open lanes can be claimed, and there is room for the others after it. */
  lemma ClaimHasRoom(ps: Params, c: Chain, l: WeiLeaf)
    requires HasRoom(c) && c.status.Finalized? && l in c.posted && (OpenA(c, l) || (OpenB(c, l) && Vested(ps, c)))
    ensures ClaimTx(ps, c, l).Some? && HasRoom(ClaimTx(ps, c, l).value)
  {
    SumOfAtLeast(c.posted, OpenAmountA(c), l);
    SumOfAtLeast(c.posted, OpenAmountB(c), l);
    var d := ClaimTx(ps, c, l).value;
    SumOfDrop(c.posted, OpenAmountA(c), OpenAmountA(d), l);
    SumOfDrop(c.posted, OpenAmountB(c), OpenAmountB(d), l);
  }

  lemma ClawHasRoom(ps: Params, c: Chain, l: WeiLeaf)
    requires HasRoom(c) && ClawTx(ps, c, l).Some?
    ensures HasRoom(ClawTx(ps, c, l).value)
  {
    var d := ClawTx(ps, c, l).value;
    SumOfSame(c.posted, OpenAmountA(d), OpenAmountA(c));
    SumOfMono(c.posted, OpenAmountB(d), OpenAmountB(c));
  }

  /** The lanes a leaf can close are closed. */
  predicate Shut(ps: Params, c: Chain, m: WeiLeaf) {
    var f := FlagsOf(c, m.account);
    (m.laneA > 0 ==> f.a) && (m.laneB > 0 || ps.vest > 0 ==> f.b || f.isVoid)
  }

  /** `d` is the final epoch `c` with more of its lanes settled. */
  ghost predicate MoreSettled(c: Chain, d: Chain) {
    Grows(c, d) && d == c.(flags := d.flags, mintedA := d.mintedA, mintedB := d.mintedB)
  }

  lemma ShutStays(ps: Params, c: Chain, d: Chain, m: WeiLeaf)
    requires MoreSettled(c, d) && Shut(ps, c, m)
    ensures Shut(ps, d, m)
  {
    assert FlagsOf(d, m.account) == FlagsOf(d, m.account);
  }

  /** A final epoch at the moment it became final. */
  ghost predicate JustFinal(c: Chain) { c.status.Finalized? && c.now == c.finalizedAt && HasRoom(c) }

  /** Where there is a vesting period, a leaf's lane B can be clawed. */
  lemma ClawOne(cfg: Config, s: State, m: WeiLeaf) returns (run: seq<State>)
    requires cfg.chunk > 0 && JustFinal(s.chain) && m in s.chain.posted
    ensures InOrder(cfg, s, run) && Last(run) == s.(chain := Last(run).chain)
    ensures var d := Last(run).chain; MoreSettled(s.chain, d) && HasRoom(d)
    ensures var f := FlagsOf(Last(run).chain, m.account); cfg.ps.vest > 0 ==> f.b || f.isVoid
  {
    var f := FlagsOf(s.chain, m.account);
    if cfg.ps.vest == 0 || f.b || f.isVoid {
      run := [s];
      SettledSelf(s.chain);
    } else {
      var d := ClawTx(cfg.ps, s.chain, m).value;
      ClawHasRoom(cfg.ps, s.chain, m);
      ClawSettles(cfg.ps, s.chain, m, d);
      assert EnvTx(cfg, s.chain, d);
      run := [s, s.(chain := d)];
    }
  }

  lemma SettledSelf(c: Chain)
    ensures MoreSettled(c, c)
  {
  }

  lemma ClawSettles(ps: Params, c: Chain, m: WeiLeaf, d: Chain)
    requires ClawTx(ps, c, m) == Some(d)
    ensures MoreSettled(c, d) && FlagsOf(d, m.account).isVoid
  {
    var f := FlagsOf(c, m.account);
    forall x: Word ensures FlagsOf(d, x) == if x == m.account then f.(isVoid := true) else FlagsOf(c, x) {
    }
  }

  lemma ClaimSettles(ps: Params, c: Chain, m: WeiLeaf, d: Chain)
    requires ClaimTx(ps, c, m) == Some(d)
    ensures MoreSettled(c, d) && !OpenA(d, m) && (Vested(ps, c) ==> !OpenB(d, m))
  {
    var f, g := FlagsOf(c, m.account), FlagsOf(d, m.account);
    forall x: Word ensures FlagsOf(d, x) == if x == m.account then g else FlagsOf(c, x) {
    }
  }

  /** Then whatever is open is claimed. */
  lemma ClaimOne(cfg: Config, s: State, m: WeiLeaf) returns (run: seq<State>)
    requires cfg.chunk > 0 && JustFinal(s.chain) && m in s.chain.posted
    requires var f := FlagsOf(s.chain, m.account); cfg.ps.vest > 0 ==> f.b || f.isVoid
    ensures InOrder(cfg, s, run) && Last(run) == s.(chain := Last(run).chain)
    ensures var d := Last(run).chain; MoreSettled(s.chain, d) && HasRoom(d) && Shut(cfg.ps, d, m)
  {
    var c := s.chain;
    if OpenA(c, m) || (OpenB(c, m) && Vested(cfg.ps, c)) {
      ClaimHasRoom(cfg.ps, c, m);
      var d := ClaimTx(cfg.ps, c, m).value;
      ClaimSettles(cfg.ps, c, m, d);
      assert FlagsOf(d, m.account) == FlagsOf(d, m.account);
      assert EnvTx(cfg, c, d);
      run := [s, s.(chain := d)];
    } else {
      run := [s];
      SettledSelf(c);
    }
  }

  lemma SettledTrans(c: Chain, d: Chain, e: Chain)
    requires MoreSettled(c, d) && MoreSettled(d, e)
    ensures MoreSettled(c, e)
  {
    forall x: Word
      ensures (FlagsOf(c, x).a ==> FlagsOf(e, x).a) && (FlagsOf(c, x).b ==> FlagsOf(e, x).b)
        && (FlagsOf(c, x).isVoid ==> FlagsOf(e, x).isVoid)
    {
      assert FlagsOf(d, x) == FlagsOf(d, x);
    }
  }

  lemma ShutOne(cfg: Config, s: State, m: WeiLeaf) returns (run: seq<State>)
    requires cfg.chunk > 0 && JustFinal(s.chain) && m in s.chain.posted
    ensures InOrder(cfg, s, run) && Last(run) == s.(chain := Last(run).chain)
    ensures var d := Last(run).chain; MoreSettled(s.chain, d) && HasRoom(d) && Shut(cfg.ps, d, m)
  {
    var x := ClawOne(cfg, s, m);
    var y := ClaimOne(cfg, Last(x), m);
    SettledTrans(s.chain, Last(x).chain, Last(y).chain);
    run := Joined(cfg, s, x, y);
  }

  /** The guardian and other claimants close every lane of a list that they can. */
  lemma {:induction false} ShutAll(cfg: Config, s: State, n: nat) returns (run: seq<State>)
    requires cfg.chunk > 0 && JustFinal(s.chain) && n <= |s.chain.posted|
    ensures InOrder(cfg, s, run) && Last(run) == s.(chain := Last(run).chain)
    ensures var d := Last(run).chain;
      MoreSettled(s.chain, d) && HasRoom(d) && forall i :: 0 <= i < n ==> Shut(cfg.ps, d, s.chain.posted[i])
  {
    if n == 0 {
      run := [s];
      SettledSelf(s.chain);
    } else {
      var x := ShutAll(cfg, s, n - 1);
      var t := Last(x);
      var y := ShutOne(cfg, t, s.chain.posted[n - 1]);
      SettledTrans(s.chain, t.chain, Last(y).chain);
      forall i | 0 <= i < n ensures Shut(cfg.ps, Last(y).chain, s.chain.posted[i]) {
        if i < n - 1 { ShutStays(cfg.ps, t.chain, Last(y).chain, s.chain.posted[i]); }
      }
      run := Joined(cfg, s, x, y);
    }
  }

  lemma ShutSettles(ps: Params, c: Chain, leaves: seq<WeiLeaf>)
    requires Closable(ps, c.posted, leaves) && forall i :: 0 <= i < |c.posted| ==> Shut(ps, c, c.posted[i])
    ensures AllSettled(c, leaves)
  {
    forall l | l in leaves ensures !OpenA(c, l) && !OpenB(c, l) { assert Closes(ps, c.posted, l); }
  }

  // ---- The pass's own way to the report ----

  /** From its reading of a posted epoch whose window has passed, up to its call of `finalize`. */
  lemma ReadsToFinalize(cfg: Config, s: State, job: Job) returns (run: seq<State>)
    requires cfg.chunk > 0 && s.pass.AtNow? && s.pass.job == job && s.pass.on.status.Posted?
      && s.pass.on.root == job.root
    requires s.chain.now >= s.pass.on.postedAt + cfg.ps.vetoDelay
    ensures InOrder(cfg, s, run) && |Last(run).calls| >= |s.calls|
    ensures Last(run) == s.(pass := AtFinalize(job), calls := Last(run).calls)
  {
    var on, now := s.pass.on, s.chain.now;
    if job.apiPosted {
      assert PassStep(cfg, s, s.(pass := AtFinalize(job)));
      run := [s, s.(pass := AtFinalize(job))];
    } else {
      var t := s.(pass := AtMark(job, on, now));
      assert PassStep(cfg, s, t);
      var u := t.(pass := AtFinalize(job), calls := t.calls + [PostedCall(job, s.chain, s.late)]);
      assert PassStep(cfg, t, u);
      run := [s, t, u];
    }
  }

  lemma Finalizes(cfg: Config, s: State, job: Job) returns (run: seq<State>)
    requires cfg.chunk > 0 && s.pass == AtFinalize(job) && s.pending == []
    requires s.chain.status.Posted? && s.chain.now >= s.chain.postedAt + cfg.ps.vetoDelay
    ensures InOrder(cfg, s, run)
    ensures var c := s.chain;
      Last(run) == s.(chain := c.(status := Finalized, finalizedAt := c.now), pass := AtReread(job))
  {
    var t := s.(chain := s.chain.(status := Finalized, finalizedAt := s.chain.now), pass := AtReread(job));
    assert PassStep(cfg, s, t);
    run := [s, t];
  }

  /** With nothing open for its job the pass claims nothing and reports it settled. */
  lemma RereadsToReport(cfg: Config, s: State, job: Job) returns (run: seq<State>)
    requires cfg.chunk > 0 && s.pass == AtReread(job) && AllSettled(s.chain, job.leaves)
    ensures InOrder(cfg, s, run) && Last(run).calls == s.calls + [SettledCall(job, s.chain, s.late)]
  {
    var c := s.chain;
    var vested := c.now >= c.finalizedAt + cfg.ps.vest;
    var t, u := s.(pass := AtClaimNow(job, c.finalizedAt + cfg.ps.vest, true)), s.(pass := AtFlags(job, vested, true));
    assert PassStep(cfg, s, t) && PassStep(cfg, t, u);
    var y := FlagsToReport(cfg, u, job);
    run := Joined(cfg, s, [s, t, u], y);
  }

  lemma FlagsToReport(cfg: Config, s: State, job: Job) returns (run: seq<State>)
    requires cfg.chunk > 0 && s.pass.AtFlags? && s.pass.job == job && AllSettled(s.chain, job.leaves)
    ensures InOrder(cfg, s, run) && Last(run).calls == s.calls + [SettledCall(job, s.chain, s.late)]
  {
    var vested, fin := s.pass.vested, s.pass.fin;
    NothingNeeded(job.leaves, s.chain, vested);
    var t := s.(pass := AtClaim(job, [], 0, 0, vested, fin));
    assert PassStep(cfg, s, t);
    var u := t.(pass := AtSettled(job, 0, fin));
    assert PassStep(cfg, t, u);
    var v := u.(pass := Ended(fin, 0, true), settled := true, calls := u.calls + [SettledCall(job, u.chain, u.late)]);
    assert PassStep(cfg, u, v);
    run := [s, t, u, v];
  }

  lemma NothingNeeded(leaves: seq<WeiLeaf>, c: Chain, vested: bool)
    requires AllSettled(c, leaves)
    ensures Needed(leaves, c, vested) == [] && Vesting(leaves, c, vested) == 0
  {
    EmptyOrNot(Needed(leaves, c, vested));
  }

  lemma EmptyOrNot<T>(xs: seq<T>)
    ensures xs == [] || exists x :: x in xs
  {
    if xs != [] { assert xs[0] in xs; }
  }

  /**
   The lost post takes the epoch, the pass finalizes it, its lanes are closed, and the pass reports its own job settled.
   */
  lemma ReportsElsewhere(cfg: Config, s: State, job: Job, k: nat) returns (run: seq<State>)
    requires cfg.chunk > 0 && Inv(cfg, s) && s.pass == AtNow(job, s.chain) && s.chain.root == job.root
    requires Vetoable(cfg.ps, s.chain) && k < |s.pending| && s.pending[k].LatePost?
      && Takes(cfg.ps, s.pending[k].job, job)
    ensures InOrder(cfg, s, run) && Made(Elsewhere, |s.calls|, Last(run))
  {
    var other := s.pending[k].job;
    run := Land(cfg, s, k);
    var t := Last(run);
    var y := Tick(cfg, t, t.chain.now + cfg.ps.vetoDelay);
    run := Joined(cfg, s, run, y);
    y := ReadsToFinalize(cfg, Last(run), job);
    run := Joined(cfg, s, run, y);
    var n := |Last(run).calls|;
    y := Finalizes(cfg, Last(run), job);
    run := Joined(cfg, s, run, y);
    var u := Last(run);
    FreshHasRoom(u.chain);
    y := ShutAll(cfg, u, |u.chain.posted|);
    run := Joined(cfg, s, run, y);
    var v := Last(run);
    ShutSettles(cfg.ps, v.chain, job.leaves);
    y := RereadsToReport(cfg, v, job);
    run := Joined(cfg, s, run, y);
    assert IsFault(Elsewhere, Last(run).calls[n]);
  }

  /**
   A pass that has just read the epoch can go on to report its job settled on an epoch of another root if and only if
   the epoch is posted with the job's root and can still be vetoed, and a lost post of another root is still out whose
   list lets every lane of the job be closed. Then it can with every transaction mined in the order of the account's
   nonces.
   */
  lemma LateSettleIff(cfg: Config, s: State, job: Job)
    requires cfg.chunk > 0 && Inv(cfg, s) && s.pass == AtNow(job, s.chain)
    ensures CanMake(cfg, s, Elsewhere)
      <==> s.chain.root == job.root && Vetoable(cfg.ps, s.chain) && LostCloser(cfg.ps, s, job)
    ensures CanMake(cfg, s, Elsewhere) ==> CanMakeInOrder(cfg, s, Elsewhere)
  {
    if s.chain.root == job.root && Vetoable(cfg.ps, s.chain) && LostCloser(cfg.ps, s, job) {
      var k :| 0 <= k < |s.pending| && s.pending[k].LatePost? && Takes(cfg.ps, s.pending[k].job, job);
      var run := ReportsElsewhere(cfg, s, job, k);
      InOrderCan(cfg, s, Elsewhere);
    } else {
      StartSettles(cfg, s, job);
      forall run | Continues(cfg, s, run) ensures !Made(Elsewhere, |s.calls|, Last(run)) {
        StaysSettles(cfg, job, s, run, |run| - 1);
      }
    }
  }

  lemma StartSettles(cfg: Config, s: State, job: Job)
    requires Inv(cfg, s) && s.pass == AtNow(job, s.chain)
    requires !(s.chain.root == job.root && Vetoable(cfg.ps, s.chain) && LostCloser(cfg.ps, s, job))
    ensures Settles(cfg.ps, job, |s.calls|, s)
  {
    if !Aside(s.pass) && !Anchored(cfg.ps, job, s.chain) { UnflaggedIsFlagged(cfg.ps, s.chain); }
  }

  // ---- Whether any run does it ----

  /** A job that a pass would post. */
  ghost predicate Poster(cfg: Config, job: Job) { Listed(cfg, job) && Posts(cfg, job) }

  /** A pass over `job` can meet its root, posted by `first`, and then the other list. */
  ghost predicate Replaceable(cfg: Config, job: Job, first: Job, other: Job) {
    Listed(cfg, job) && Poster(cfg, first) && first.root == job.root && Poster(cfg, other) && Takes(cfg.ps, other, job)
  }

  /** Both posts are lost; the first is mined, a pass reads it, and the other takes its place under the pass. */
  lemma LateSettleRun(cfg: Config, s: State, job: Job, first: Job, other: Job) returns (run: seq<State>)
    requires cfg.chunk > 0 && cfg.ps.vetoDelay > 0 && Init(s) && Replaceable(cfg, job, first, other)
    ensures OrderlyRun(cfg, run) && run[0] == s && Made(Elsewhere, 0, Last(run))
  {
    run := PassLosesPost(cfg, [s], first);
    run := PassLosesPost(cfg, run, other);
    var t := Last(run);
    assert t.pending == [LatePost(first), LatePost(other)];
    var u := t.(chain := Landed(t.chain, first), pending := [LatePost(other)], late := true);
    assert Without(t.pending, 0) == u.pending;
    assert MineStep(cfg, t, u, 0);
    run := RunOn(cfg, run, [t, u]);
    run := PassReads(cfg, run, job);
    OrderlyRunIsRun(cfg, run);
    RunKeeps(cfg, run, |run| - 1);
    var y := ReportsElsewhere(cfg, Last(run), job, 0);
    run := RunOn(cfg, run, y);
  }

  /** The epoch's post is that of a job that a pass would post. */
  ghost predicate Origin(cfg: Config, c: Chain) {
    !c.status.None? ==> PosterOf(cfg, c.root, c.posted)
  }

  ghost predicate PosterOf(cfg: Config, root: Word, posted: seq<WeiLeaf>) {
    exists job :: Poster(cfg, job) && job.root == root && job.leaves == posted
  }

  ghost predicate RootPosted(cfg: Config, root: Word) { exists job :: Poster(cfg, job) && job.root == root }

  /** On the branch that may end in a settled report. */
  predicate Bound(pass: Pass) {
    || pass.AtMark? || pass.AtFinalize? || pass.AtReread? || pass.AtClaimNow? || pass.AtFlags? || pass.AtClaim?
    || pass.AtSettled?
  }

  lemma BoundStays(cfg: Config, s: State, t: State)
    requires cfg.chunk > 0 && PassStep(cfg, s, t) && Bound(s.pass)
    ensures t.pass.Done? || (Bound(t.pass) && t.pass.job == s.pass.job)
  {
  }

  lemma OthersStay(cfg: Config, s: State, t: State)
    requires cfg.chunk > 0 && PassStep(cfg, s, t) && !Bound(s.pass) && !s.pass.AtNow?
    ensures t.pass.Done? || t.pass.AtPosted? || (s.pass.AtEpoch? && t.pass == AtNow(s.pass.job, s.chain))
      || (NearPost(s.pass) && NearPost(t.pass) && t.pass.job == s.pass.job)
  {
  }

  ghost predicate PassOrigin(cfg: Config, pass: Pass) {
    && (pass.AtEpoch? || pass.AtNow? ==> Listed(cfg, pass.job))
    && (pass.AtNow? ==> Origin(cfg, pass.on))
    && (NearPost(pass) ==> Poster(cfg, pass.job))
    && (Bound(pass) ==> Listed(cfg, pass.job) && RootPosted(cfg, pass.job.root))
  }

  ghost predicate PostersLost(cfg: Config, txs: seq<Tx>) {
    forall k :: 0 <= k < |txs| && txs[k].LatePost? ==> Poster(cfg, txs[k].job)
  }

  ghost predicate Sourced(cfg: Config, s: State) {
    && Origin(cfg, s.chain) && PostersLost(cfg, s.pending) && PassOrigin(cfg, s.pass) && Flagged(cfg.ps, s.chain)
    && (Made(Elsewhere, 0, s) ==> SomeReplaceable(cfg))
  }

  ghost predicate SomeReplaceable(cfg: Config) { exists job, first, other :: Replaceable(cfg, job, first, other) }

  /** The chain's post is as it was. */
  predicate SamePost(c: Chain, d: Chain) {
    (c.status.None? <==> d.status.None?) && d.root == c.root && d.posted == c.posted
  }

  lemma PassKeepsPost(cfg: Config, s: State, t: State)
    requires cfg.chunk > 0 && PassStep(cfg, s, t) && !s.pass.AtPost?
    ensures SamePost(s.chain, t.chain)
  {
    if s.pass.AtClaim? && s.pass.rest != [] { ClaimForKeeps(cfg.ps, s.chain, s.pass.rest[0], t.chain); }
  }

  lemma PassPosts(cfg: Config, s: State, t: State)
    requires cfg.chunk > 0 && PassStep(cfg, s, t) && s.pass.AtPost?
    ensures t.chain.root == s.pass.job.root && t.chain.posted == s.pass.job.leaves
  {
  }

  lemma PassKeepsOrigin(cfg: Config, s: State, t: State)
    requires cfg.chunk > 0 && Origin(cfg, s.chain) && PassOrigin(cfg, s.pass) && PassStep(cfg, s, t)
    ensures Origin(cfg, t.chain)
  {
    if s.pass.AtPost? { PassPosts(cfg, s, t); } else { PassKeepsPost(cfg, s, t); }
  }

  /** Where a pass can be after a step. */
  predicate Advances(cfg: Config, c: Chain, pass: Pass, next: Pass) {
    || next.Done? || next.AtPosted? || (pass.AtEpoch? && next == AtNow(pass.job, c))
    || (NearPost(pass) && NearPost(next) && next.job == pass.job)
      || (Bound(pass) && Bound(next) && next.job == pass.job)
    || (pass.AtNow? && next == AfterReads(cfg, pass.job, pass.on, c.now))
  }

  lemma PassAdvances(cfg: Config, s: State, t: State)
    requires cfg.chunk > 0 && PassStep(cfg, s, t)
    ensures Advances(cfg, s.chain, s.pass, t.pass)
  {
    if Bound(s.pass) { BoundStays(cfg, s, t); } else if !s.pass.AtNow? { OthersStay(cfg, s, t); }
  }

  lemma OriginAdvances(cfg: Config, c: Chain, pass: Pass, next: Pass)
    requires Origin(cfg, c) && PassOrigin(cfg, pass) && Advances(cfg, c, pass, next)
    ensures PassOrigin(cfg, next)
  {
    if pass.AtNow? { ReadsOrigin(cfg, pass.job, pass.on, c.now); }
  }

  lemma ReadsOrigin(cfg: Config, job: Job, on: Chain, now: nat)
    requires Listed(cfg, job) && Origin(cfg, on)
    ensures PassOrigin(cfg, AfterReads(cfg, job, on, now))
  {
    ReadsTo(cfg, job, on, now);
    if !on.status.None? { assert PosterOf(cfg, on.root, on.posted); }
  }

  lemma ReadsTo(cfg: Config, job: Job, on: Chain, now: nat)
    ensures var pass := AfterReads(cfg, job, on, now);
      && (NearPost(pass) ==> Posts(cfg, job) && pass.job == job)
      && (Bound(pass) ==> !on.status.None? && on.root == job.root && pass.job == job) && !pass.AtEpoch? && !pass.AtNow?
  {
  }

  /** A job reported settled elsewhere was replaced. */
  lemma ReportIsReplaced(cfg: Config, s: State, t: State)
    requires cfg.chunk > 0 && Inv(cfg, s) && Sourced(cfg, s) && PassStep(cfg, s, t)
    ensures Made(Elsewhere, 0, t) ==> SomeReplaceable(cfg)
  {
    if s.pass.AtSettled? && s.chain.root != s.pass.job.root {
      var job := s.pass.job;
      SettledIsClosable(cfg.ps, s.chain, job.leaves);
      var first :| Poster(cfg, first) && first.root == job.root;
      assert PosterOf(cfg, s.chain.root, s.chain.posted);
      var other :| Poster(cfg, other) && other.root == s.chain.root && other.leaves == s.chain.posted;
      assert Replaceable(cfg, job, first, other);
    } else if !Made(Elsewhere, 0, s) {
      NotMadeBy(cfg, Elsewhere, 0, s, t);
    }
  }

  lemma PassSourced(cfg: Config, s: State, t: State)
    requires cfg.chunk > 0 && Inv(cfg, s) && Sourced(cfg, s) && PassStep(cfg, s, t)
    ensures Sourced(cfg, t)
  {
    PassKeepsOrigin(cfg, s, t);
    PassAdvances(cfg, s, t);
    OriginAdvances(cfg, s.chain, s.pass, t.pass);
    PassFlags(cfg, s, t);
    ReportIsReplaced(cfg, s, t);
  }

  lemma MineSourced(cfg: Config, s: State, t: State, k: nat)
    requires Origin(cfg, s.chain) && PostersLost(cfg, s.pending) && MineStep(cfg, s, t, k)
    ensures Origin(cfg, t.chain) && PostersLost(cfg, t.pending)
  {
    FewerLost(cfg, s.pending, k);
    if s.pending[k].LatePost? { assert Poster(cfg, s.pending[k].job); }
    else if s.pending[k].LateClaim? && t.chain != s.chain {
      ClaimForKeeps(cfg.ps, s.chain, s.pending[k].entries, t.chain);
    }
  }

  lemma EnvOrigin(cfg: Config, c: Chain, d: Chain)
    requires Origin(cfg, c) && EnvTx(cfg, c, d)
    ensures Origin(cfg, d)
  {
  }

  lemma ProceedsOrigin(cfg: Config, s: State, t: State)
    requires cfg.chunk > 0 && Origin(cfg, s.chain) && PostersLost(cfg, s.pending) && PassOrigin(cfg, s.pass)
    requires Proceeds(cfg, s, t) && !PassStep(cfg, s, t)
    ensures Origin(cfg, t.chain) && PostersLost(cfg, t.pending) && (t.pass == s.pass || t.pass.Idle?)
  {
    if k: nat :| MineStep(cfg, s, t, k) { MineSourced(cfg, s, t, k); }
    else if k: nat :| DropStep(s, t, k) { FewerLost(cfg, s.pending, k); }
    else if Loses(cfg, s, t) { OwnLost(cfg, s.pass); }
    else if EnvTx(cfg, s.chain, t.chain) && t == s.(chain := t.chain) { EnvOrigin(cfg, s.chain, t.chain); }
  }

  lemma FewerLost(cfg: Config, txs: seq<Tx>, k: nat)
    requires PostersLost(cfg, txs) && k < |txs|
    ensures PostersLost(cfg, Without(txs, k))
  {
  }

  lemma OwnLost(cfg: Config, pass: Pass)
    requires PassOrigin(cfg, pass)
    ensures PostersLost(cfg, InFlight(pass))
  {
  }

  lemma StepSourced(cfg: Config, s: State, t: State)
    requires cfg.chunk > 0 && Inv(cfg, s) && Sourced(cfg, s) && Step(cfg, s, t)
    ensures Sourced(cfg, t)
  {
    if Begins(cfg, s, t) {
      if !Made(Elsewhere, 0, s) { NotMade(Elsewhere, 0, s, t); }
    } else if PassStep(cfg, s, t) {
      PassSourced(cfg, s, t);
    } else {
      OtherSourced(cfg, s, t);
    }
  }

  lemma OtherSourced(cfg: Config, s: State, t: State)
    requires cfg.chunk > 0 && Sourced(cfg, s) && Proceeds(cfg, s, t) && !PassStep(cfg, s, t)
    ensures Sourced(cfg, t)
  {
    ProceedsOrigin(cfg, s, t);
    ProceedsFlags(cfg, s, t);
    if !Made(Elsewhere, 0, s) { NotMade(Elsewhere, 0, s, t); }
  }

  lemma InitSourced(cfg: Config, s: State)
    requires Init(s)
    ensures Sourced(cfg, s)
  {
    UnflaggedIsFlagged(cfg.ps, s.chain);
  }

  lemma {:induction false} RunSourced(cfg: Config, run: seq<State>, i: nat)
    requires IsRun(cfg, run) && i < |run|
    ensures Sourced(cfg, run[i])
  {
    if i == 0 {
      InitSourced(cfg, run[0]);
    } else {
      var s, t := run[i - 1], run[i];
      RunSourced(cfg, run, i - 1);
      RunKeeps(cfg, run, i - 1);
      StepSourced(cfg, s, t);
    }
  }

  // ---- Without a veto window a live epoch keeps its root ----

  ghost predicate Keeps(c: Chain, root: Word) { !c.status.None? && c.root == root }

  ghost predicate Unmoved(s: State) {
    && !Made(Elsewhere, 0, s) && !s.chain.status.Vetoed?
    && (s.pass.AtNow? && !s.pass.on.status.None? ==> Keeps(s.chain, s.pass.on.root))
    && (Bound(s.pass) ==> Keeps(s.chain, s.pass.job.root))
  }

  lemma PassUnmoved(cfg: Config, s: State, t: State)
    requires cfg.chunk > 0 && Unmoved(s) && PassStep(cfg, s, t)
    ensures Unmoved(t)
  {
    PassVetoesNothing(cfg, s, t);
    NotMadeBy(cfg, Elsewhere, 0, s, t);
    if s.pass.AtNow? {
      ReadsTo(cfg, s.pass.job, s.pass.on, s.chain.now);
    } else if Bound(s.pass) {
      BoundStays(cfg, s, t);
      BoundKeeps(cfg, s, t, s.pass.job.root);
    } else {
      OthersStay(cfg, s, t);
    }
  }

  lemma BoundKeeps(cfg: Config, s: State, t: State, root: Word)
    requires cfg.chunk > 0 && PassStep(cfg, s, t) && Bound(s.pass) && Keeps(s.chain, root)
    ensures Keeps(t.chain, root)
  {
    if s.pass.AtClaim? && s.pass.rest != [] { ClaimForKeeps(cfg.ps, s.chain, s.pass.rest[0], t.chain); }
  }

  lemma ProceedsUnmoved(cfg: Config, s: State, t: State)
    requires cfg.chunk > 0 && Unmoved(s) && Proceeds(cfg, s, t) && VetoedInWindow(cfg.ps, t.chain)
      && cfg.ps.vetoDelay == 0
    ensures Unmoved(t)
  {
    if PassStep(cfg, s, t) {
      PassUnmoved(cfg, s, t);
    } else {
      NotMade(Elsewhere, 0, s, t);
      if k: nat :| MineStep(cfg, s, t, k) {
        if !s.pending[k].LatePost? { MineCalm(cfg, s, t, k); }
      } else if EnvTx(cfg, s.chain, t.chain) && t == s.(chain := t.chain) {
        EnvCalm(cfg, s.chain, t.chain);
      }
    }
  }

  lemma {:induction false} RunUnmoved(cfg: Config, run: seq<State>, i: nat)
    requires IsRun(cfg, run) && i < |run| && cfg.ps.vetoDelay == 0
    ensures Unmoved(run[i])
  {
    if i > 0 {
      RunUnmoved(cfg, run, i - 1);
      RunInWindow(cfg, run, i);
      if Begins(cfg, run[i - 1], run[i]) { NotMade(Elsewhere, 0, run[i - 1], run[i]); }
      else { ProceedsUnmoved(cfg, run[i - 1], run[i]); }
    }
  }

  /**
   From any start, some run reports a job settled on an epoch of another root if and only if there is a veto window, and
   two lists that a pass would post, one with the job's root and one of another root that lets the job's lanes be
   closed.
   */
  lemma LateSettleRunIff(cfg: Config, s: State)
    requires cfg.chunk > 0 && Init(s)
    ensures (exists run :: IsRun(cfg, run) && run[0] == s && Made(Elsewhere, 0, Last(run)))
      <==> cfg.ps.vetoDelay > 0 && SomeReplaceable(cfg)
  {
    if cfg.ps.vetoDelay > 0 && SomeReplaceable(cfg) {
      var job, first, other :| Replaceable(cfg, job, first, other);
      var run := LateSettleRun(cfg, s, job, first, other);
      OrderlyRunIsRun(cfg, run);
    } else {
      forall run | IsRun(cfg, run) ensures !Made(Elsewhere, 0, Last(run)) {
        if cfg.ps.vetoDelay == 0 { RunUnmoved(cfg, run, |run| - 1); } else { RunSourced(cfg, run, |run| - 1); }
      }
    }
  }
}
