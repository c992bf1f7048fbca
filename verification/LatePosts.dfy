/**
 What a post can do that was broadcast by a pass and lost sight of (keeper/src/chain.ts:63-68): it may be mined while a
 later pass is under way. The keeper never means to post a vetoed root again (keeper/src/run.ts:119-120), and never does
 in a pass that saw the veto; this module says exactly when a pass that read the epoch too early does so all the same.
 */
module LatePosts {
  import opened Wrappers
  import opened KeeperTree
  import opened Settlement
  import opened Keeper

  // ---- Calls that say what is not so, and what may follow a state ----

  datatype Fault = Repost | FalseVeto | FalsePosted | Elsewhere

  /** A post of the root held as vetoed; a report of a veto, a post or a settlement that the chain does not hold. */
  predicate IsFault(f: Fault, call: Call) {
    match f
    case Repost => call.PostCall? && call.at.status.Vetoed? && call.at.root == call.job.root
    case FalseVeto => call.VetoedCall? && !(call.at.status.Vetoed? && call.at.root == call.job.root)
    case FalsePosted => call.PostedCall? && (call.at.status.None? || call.at.root != call.job.root)
    case Elsewhere => call.SettledCall? && call.at.root != call.job.root
  }

  /** Some call since the first `n` is at fault. */
  ghost predicate Made(f: Fault, n: nat, s: State) { exists k :: n <= k < |s.calls| && IsFault(f, s.calls[k]) }

  lemma NotMade(f: Fault, n: nat, s: State, t: State)
    requires !Made(f, n, s)
    requires t.calls == s.calls || exists call :: t.calls == s.calls + [call] && !IsFault(f, call)
    ensures !Made(f, n, t)
  {
  }

  /** What may follow `s` before the next pass begins. */
  ghost predicate Continues(cfg: Config, s: State, run: seq<State>) {
    && cfg.chunk > 0 && |run| > 0 && run[0] == s
    && forall i {:trigger run[i]} :: 0 < i < |run| ==> Proceeds(cfg, run[i - 1], run[i])
  }

  /**
   A step that the nonces of the one account allow, whatever nodes do: its transactions are mined oldest first, those of
   a pass only when none is left over, only the youngest are dropped, and none is broadcast that would have reverted.
   */
  ghost predicate Orderly(cfg: Config, s: State, t: State)
    requires cfg.chunk > 0
  {
    || (PassStep(cfg, s, t) && (s.pending == [] || InFlight(s.pass) == []))
    || t == s.(pass := Idle)
    || (Loses(cfg, s, t) && forall tx :: tx in InFlight(s.pass) ==> Mine(cfg.ps, s.chain, tx).Some?)
    || MineStep(cfg, s, t, 0)
    || (s.pending != [] && DropStep(s, t, |s.pending| - 1))
    || (EnvTx(cfg, s.chain, t.chain) && t == s.(chain := t.chain))
    || (VetoTx(cfg.ps, s.chain) == Some(t.chain) && t == s.(chain := t.chain, vetoed := true))
  }

  /** The pass dies waiting for a receipt. */
  ghost predicate Loses(cfg: Config, s: State, t: State) {
    t == s.(pass := Idle, pending := s.pending + InFlight(s.pass))
  }

  ghost predicate InOrder(cfg: Config, s: State, run: seq<State>) {
    && cfg.chunk > 0 && |run| > 0 && run[0] == s
    && forall i {:trigger run[i]} :: 0 < i < |run| ==> Orderly(cfg, run[i - 1], run[i])
  }

  function Last(run: seq<State>): State
    requires run != []
  {
    run[|run| - 1]
  }

  /** Something that may follow `s` is at fault. */
  ghost predicate CanMake(cfg: Config, s: State, f: Fault) {
    exists run :: Continues(cfg, s, run) && Made(f, |s.calls|, Last(run))
  }

  /** The same, with the account's nonces respected. */
  ghost predicate CanMakeInOrder(cfg: Config, s: State, f: Fault) {
    exists run :: InOrder(cfg, s, run) && Made(f, |s.calls|, Last(run))
  }

  lemma OrderlyProceeds(cfg: Config, s: State, t: State)
    requires cfg.chunk > 0 && Orderly(cfg, s, t)
    ensures Proceeds(cfg, s, t)
  {
  }

  lemma InOrderCan(cfg: Config, s: State, f: Fault)
    requires CanMakeInOrder(cfg, s, f)
    ensures CanMake(cfg, s, f)
  {
    var run :| InOrder(cfg, s, run) && Made(f, |s.calls|, Last(run));
    forall i | 0 < i < |run| ensures Proceeds(cfg, run[i - 1], run[i]) { OrderlyProceeds(cfg, run[i - 1], run[i]); }
    assert Continues(cfg, s, run);
  }

  lemma Then(cfg: Config, s: State, run: seq<State>, t: State) returns (more: seq<State>)
    requires InOrder(cfg, s, run) && Orderly(cfg, Last(run), t)
    ensures InOrder(cfg, s, more) && Last(more) == t
  {
    more := run + [t];
  }

  lemma Joined(cfg: Config, s: State, x: seq<State>, y: seq<State>) returns (run: seq<State>)
    requires InOrder(cfg, s, x) && InOrder(cfg, Last(x), y)
    ensures InOrder(cfg, s, run) && Last(run) == Last(y)
  {
    run := x + y[1..];
    forall i | 0 < i < |run| ensures Orderly(cfg, run[i - 1], run[i]) {
      if i >= |x| { assert run[i] == y[i - |x| + 1] && run[i - 1] == y[i - |x|]; }
    }
  }

  // ---- A lost post comes to hold the epoch ----

  predicate Reopened(c: Chain) { c.status.None? || c.status.Vetoed? }

  predicate Vetoable(ps: Params, c: Chain) { c.status.Posted? && c.now < c.postedAt + ps.vetoDelay }

  function Landed(c: Chain, job: Job): Chain {
    c.(status := Posted, root := job.root, posted := job.leaves, totalA := job.totalA, totalB := job.totalB,
       postedAt := c.now)
  }

  /** `t` is `s` but for the epoch's post, its place in the veto window, and the lost transactions. */
  ghost predicate SamePass(s: State, t: State) {
    && t.pass == s.pass && t.calls == s.calls && t.settled == s.settled && t.start == s.start
    && t.chain == t.chain.(now := s.chain.now, flags := s.chain.flags, mintedA := s.chain.mintedA,
                           mintedB := s.chain.mintedB, finalizedAt := s.chain.finalizedAt)
  }

  lemma VetoNow(cfg: Config, s: State) returns (run: seq<State>)
    requires cfg.chunk > 0 && Vetoable(cfg.ps, s.chain)
    ensures InOrder(cfg, s, run) && Last(run) == s.(chain := s.chain.(status := Vetoed), vetoed := true)
  {
    run := [s, s.(chain := s.chain.(status := Vetoed), vetoed := true)];
  }

  /** The oldest lost transaction is mined while the epoch is open to a post; if it was a post, it is vetoed. */
  lemma FlushOne(cfg: Config, s: State) returns (run: seq<State>)
    requires cfg.chunk > 0 && cfg.ps.vetoDelay > 0 && Reopened(s.chain) && s.pending != []
    ensures InOrder(cfg, s, run) && Reopened(Last(run).chain)
    ensures SamePass(s, Last(run)) && Last(run).pending == s.pending[1..]
  {
    var tx := s.pending[0];
    assert Without(s.pending, 0) == s.pending[1..];
    if tx.LatePost? {
      var t := s.(chain := Landed(s.chain, tx.job), pending := s.pending[1..], late := true);
      assert MineStep(cfg, s, t, 0);
      var veto := VetoNow(cfg, t);
      run := Joined(cfg, s, [s, t], veto);
    } else {
      NotFinalYet(cfg, s.chain, tx);
      var t := s.(pending := s.pending[1..]);
      assert MineStep(cfg, s, t, 0);
      run := [s, t];
    }
  }

  lemma NotFinalYet(cfg: Config, c: Chain, tx: Tx)
    requires Reopened(c) && !tx.LatePost?
    ensures var d := Mine(cfg.ps, c, tx); d.None? || d.value == c
  {
    if tx.LateClaim? && tx.entries != [] { assert ClaimTx(cfg.ps, c, tx.entries[0]).None?; }
  }

  lemma {:induction false} Flush(cfg: Config, s: State, k: nat) returns (run: seq<State>)
    requires cfg.chunk > 0 && cfg.ps.vetoDelay > 0 && Reopened(s.chain) && k <= |s.pending|
    ensures InOrder(cfg, s, run) && Reopened(Last(run).chain)
    ensures SamePass(s, Last(run)) && Last(run).pending == s.pending[k..]
    decreases k
  {
    if k == 0 {
      run := [s];
    } else {
      var x := FlushOne(cfg, s);
      var y := Flush(cfg, Last(x), k - 1);
      run := Joined(cfg, s, x, y);
    }
  }

  lemma {:induction false} DropAll(cfg: Config, s: State) returns (run: seq<State>)
    requires cfg.chunk > 0
    ensures InOrder(cfg, s, run) && Last(run) == s.(pending := [])
    decreases |s.pending|
  {
    if s.pending == [] {
      run := [s];
    } else {
      var n := |s.pending| - 1;
      var t := s.(pending := s.pending[..n]);
      assert Without(s.pending, n) == s.pending[..n];
      assert DropStep(s, t, n);
      var y := DropAll(cfg, t);
      run := Joined(cfg, s, [s, t], y);
    }
  }

  /** The lost post `k` lands, and nothing is lost any more. */
  lemma Land(cfg: Config, s: State, k: nat) returns (run: seq<State>)
    requires cfg.chunk > 0 && cfg.ps.vetoDelay > 0 && (Reopened(s.chain) || Vetoable(cfg.ps, s.chain))
    requires k < |s.pending| && s.pending[k].LatePost?
    ensures InOrder(cfg, s, run)
    ensures var t, job := Last(run), s.pending[k].job;
      t.pass == s.pass && t.calls == s.calls && t.pending == [] && t.chain == Landed(s.chain, job)
  {
    var x := [s];
    if Vetoable(cfg.ps, s.chain) { x := VetoNow(cfg, s); }
    var y := Flush(cfg, Last(x), k);
    x := Joined(cfg, s, x, y);
    var u := Last(x);
    assert u.pending[0] == s.pending[k] && Without(u.pending, 0) == u.pending[1..];
    var t := u.(chain := Landed(u.chain, s.pending[k].job), pending := u.pending[1..], late := true);
    assert MineStep(cfg, u, t, 0);
    x := Then(cfg, s, x, t);
    var z := DropAll(cfg, t);
    run := Joined(cfg, s, x, z);
  }

  // ---- Without a lost post, or a veto window, the vetoed root is not posted ----

  /** A lost post of `root` is still out. */
  ghost predicate Lost(s: State, root: Word) {
    exists k :: 0 <= k < |s.pending| && s.pending[k].LatePost? && s.pending[k].job.root == root
  }

  /** The pass goes on to post what it finds not live. */
  predicate Posts(cfg: Config, job: Job) { !job.apiPosted && cfg.ps.epoch >= cfg.ps.genesisEpoch }

  ghost predicate Safe(cfg: Config, s: State, job: Job) {
    if cfg.ps.vetoDelay == 0 then !(s.chain.status.Vetoed? && s.chain.root == job.root)
    else (s.chain.status.None? || s.chain.root != job.root) && !Lost(s, job.root)
  }

  /** A pass over `job` that has made `n` calls before this epoch, and has no way to the vetoed root. */
  ghost predicate Clean(cfg: Config, job: Job, n: nat, s: State) {
    && !Made(Repost, n, s)
    && match s.pass
       case AtNow(j, on) => j == job && Postable(on, job) && (!Posts(cfg, job) || Safe(cfg, s, job))
       case AtEscrow(j) => j == job && Safe(cfg, s, job)
       case AtAllowance(j) => j == job && Safe(cfg, s, job)
       case AtPost(j) => j == job && Safe(cfg, s, job)
       case AtPosted(_) => true
       case Idle => true
       case Done(_) => true
       case _ => false
  }

  lemma PassClean(cfg: Config, job: Job, n: nat, s: State, t: State)
    requires cfg.chunk > 0 && Clean(cfg, job, n, s) && PassStep(cfg, s, t)
    ensures Clean(cfg, job, n, t)
  {
    if s.pass.AtPost? {
      assert t.calls == s.calls + [PostCall(s.pass.job, s.chain, s.late)];
    } else if s.pass.AtPosted? {
      assert t.calls == s.calls + [PostedCall(s.pass.job, s.chain, s.late)];
    }
    NotMade(Repost, n, s, t);
  }

  /** A move that keeps the root of a live epoch and vetoes nothing. */
  ghost predicate Calm(c: Chain, d: Chain) {
    && (c.status.None? ==> d.status.None?) && (!c.status.None? ==> !d.status.None? && d.root == c.root)
    && (d.status.Vetoed? ==> c.status.Vetoed?)
  }

  lemma EnvCalm(cfg: Config, c: Chain, d: Chain)
    requires EnvTx(cfg, c, d)
    ensures Calm(c, d)
  {
  }

  lemma MineCalm(cfg: Config, s: State, t: State, k: nat)
    requires MineStep(cfg, s, t, k) && !s.pending[k].LatePost?
    ensures Calm(s.chain, t.chain)
  {
    if s.pending[k].LateClaim? && t.chain != s.chain {
      ClaimForKeeps(cfg.ps, s.chain, s.pending[k].entries, t.chain);
    }
  }

  lemma LostBefore(s: State, t: State, k: nat, root: Word)
    requires k < |s.pending| && t.pending == Without(s.pending, k) && Lost(t, root)
    ensures Lost(s, root)
  {
    var i :| 0 <= i < |t.pending| && t.pending[i].LatePost? && t.pending[i].job.root == root;
    assert s.pending[if i < k then i else i + 1] == t.pending[i];
  }

  lemma MineClean(cfg: Config, job: Job, n: nat, s: State, t: State, k: nat)
    requires cfg.chunk > 0 && Clean(cfg, job, n, s) && MineStep(cfg, s, t, k)
    ensures Clean(cfg, job, n, t)
  {
    if Lost(t, job.root) { LostBefore(s, t, k, job.root); }
    if !s.pending[k].LatePost? { MineCalm(cfg, s, t, k); }
  }

  lemma DropClean(cfg: Config, job: Job, n: nat, s: State, t: State, k: nat)
    requires Clean(cfg, job, n, s) && DropStep(s, t, k)
    ensures Clean(cfg, job, n, t)
  {
    if Lost(t, job.root) { LostBefore(s, t, k, job.root); }
  }

  lemma ProceedsClean(cfg: Config, job: Job, n: nat, s: State, t: State)
    requires cfg.chunk > 0 && Inv(cfg, s) && Clean(cfg, job, n, s) && Proceeds(cfg, s, t)
    ensures Clean(cfg, job, n, t)
  {
    if PassStep(cfg, s, t) {
      PassClean(cfg, job, n, s, t);
    } else if k: nat :| MineStep(cfg, s, t, k) {
      MineClean(cfg, job, n, s, t, k);
    } else if k: nat :| DropStep(s, t, k) {
      DropClean(cfg, job, n, s, t, k);
    } else if EnvTx(cfg, s.chain, t.chain) && t == s.(chain := t.chain) {
      EnvCalm(cfg, s.chain, t.chain);
    }
  }

  lemma {:induction false} StaysClean(cfg: Config, job: Job, s: State, run: seq<State>, i: nat)
    requires Continues(cfg, s, run) && Inv(cfg, s) && Clean(cfg, job, |s.calls|, s) && i < |run|
    ensures Inv(cfg, run[i]) && Clean(cfg, job, |s.calls|, run[i])
  {
    if i > 0 {
      StaysClean(cfg, job, s, run, i - 1);
      StepKeeps(cfg, run[i - 1], run[i]);
      ProceedsClean(cfg, job, |s.calls|, run[i - 1], run[i]);
    }
  }

  // ---- With them, it can be ----

  /** The clock passes the epoch's end, and the pass reads on up to its post. */
  lemma ReadsToPost(cfg: Config, s: State, job: Job) returns (run: seq<State>)
    requires cfg.chunk > 0 && s.pass.AtNow? && s.pass.job == job && Postable(s.pass.on, job) && Posts(cfg, job)
    ensures InOrder(cfg, s, run)
    ensures Last(run) == s.(chain := s.chain.(now := Last(run).chain.now), pass := AtPost(job))
  {
    var end := (cfg.ps.epoch + 1) * cfg.ps.epochSeconds;
    run := Tick(cfg, s, if s.chain.now < end then end else s.chain.now);
    var t := Last(run);
    assert AfterReads(cfg, job, s.pass.on, t.chain.now) == AtEscrow(job);
    run := Then(cfg, s, run, t.(pass := AtEscrow(job)));
    var y := EscrowToPost(cfg, Last(run), job);
    run := Joined(cfg, s, run, y);
  }

  lemma EscrowToPost(cfg: Config, s: State, job: Job) returns (run: seq<State>)
    requires cfg.chunk > 0 && s.pass == AtEscrow(job)
    ensures InOrder(cfg, s, run) && Last(run) == s.(pass := AtPost(job))
  {
    var t, u := s.(pass := AtAllowance(job)), s.(pass := AtPost(job));
    assert PassStep(cfg, s, t) && PassStep(cfg, t, u);
    run := [s, t, u];
  }

  lemma Tick(cfg: Config, s: State, now: nat) returns (run: seq<State>)
    requires cfg.chunk > 0 && now >= s.chain.now
    ensures InOrder(cfg, s, run) && Last(run) == s.(chain := s.chain.(now := now))
  {
    var t := s.(chain := s.chain.(now := now));
    assert EnvTx(cfg, s.chain, t.chain);
    run := [s, t];
  }

  /** The lost post of the job's root lands and is vetoed, and the pass posts. */
  lemma Reposts(cfg: Config, s: State, job: Job, k: nat) returns (run: seq<State>)
    requires cfg.chunk > 0 && s.pass == AtNow(job, s.chain) && Postable(s.chain, job) && Posts(cfg, job)
    requires k < |s.pending| && s.pending[k].LatePost? && s.pending[k].job.root == job.root && cfg.ps.vetoDelay > 0
    ensures InOrder(cfg, s, run) && Made(Repost, |s.calls|, Last(run))
  {
    var x := ReadsToPost(cfg, s, job);
    var y := Land(cfg, Last(x), k);
    run := Joined(cfg, s, x, y);
    var z := VetoNow(cfg, Last(run));
    run := Joined(cfg, s, run, z);
    var t := Last(run);
    var u := t.(chain := Landed(t.chain, job), pass := AtPosted(job),
      calls := t.calls + [PostCall(job, t.chain, t.late)],
                late := false);
    assert PassStep(cfg, t, u);
    run := Then(cfg, s, run, u);
    assert IsFault(Repost, u.calls[|s.calls|]);
  }

  /**
   A pass that has just read an epoch it may post can go on to post its vetoed root if and only if a lost post of that
   root is still out, the contract has a veto window, and the pass gets to post at all. Then it can with every
   transaction mined in the order of the account's nonces.
   */
  lemma LatePostIff(cfg: Config, s: State, job: Job)
    requires cfg.chunk > 0 && Inv(cfg, s) && s.pass == AtNow(job, s.chain) && Postable(s.chain, job)
    ensures CanMake(cfg, s, Repost) <==> Lost(s, job.root) && cfg.ps.vetoDelay > 0 && Posts(cfg, job)
    ensures CanMake(cfg, s, Repost) ==> CanMakeInOrder(cfg, s, Repost)
  {
    if Lost(s, job.root) && cfg.ps.vetoDelay > 0 && Posts(cfg, job) {
      var k :| 0 <= k < |s.pending| && s.pending[k].LatePost? && s.pending[k].job.root == job.root;
      var run := Reposts(cfg, s, job, k);
      InOrderCan(cfg, s, Repost);
    } else {
      assert Clean(cfg, job, |s.calls|, s);
      forall run | Continues(cfg, s, run) ensures !Made(Repost, |s.calls|, Last(run)) {
        StaysClean(cfg, job, s, run, |run| - 1);
      }
    }
  }

  // ---- Whether any run does it ----

  /** The job of a payload that the API may list. */
  ghost predicate Listed(cfg: Config, job: Job) { job.leaves in cfg.known && exists p :: Prepare(cfg, p) == Some(job) }

  /** A run in which the account's nonces are respected. */
  ghost predicate OrderlyRun(cfg: Config, run: seq<State>) {
    && cfg.chunk > 0 && |run| > 0 && Init(run[0])
    && forall i {:trigger run[i]} :: 0 < i < |run| ==>
       Orderly(cfg, run[i - 1], run[i]) || Begins(cfg, run[i - 1], run[i])
  }

  lemma OrderlyRunIsRun(cfg: Config, run: seq<State>)
    requires OrderlyRun(cfg, run)
    ensures IsRun(cfg, run)
  {
    forall i | 0 < i < |run| ensures Step(cfg, run[i - 1], run[i]) {
      if Orderly(cfg, run[i - 1], run[i]) { OrderlyProceeds(cfg, run[i - 1], run[i]); }
    }
  }

  lemma RunOn(cfg: Config, run: seq<State>, y: seq<State>) returns (more: seq<State>)
    requires OrderlyRun(cfg, run) && InOrder(cfg, Last(run), y)
    ensures OrderlyRun(cfg, more) && Last(more) == Last(y) && more[0] == run[0]
  {
    more := run + y[1..];
    forall i | 0 < i < |more| ensures Orderly(cfg, more[i - 1], more[i]) || Begins(cfg, more[i - 1], more[i]) {
      if i >= |run| { assert more[i] == y[i - |run| + 1] && more[i - 1] == y[i - |run|]; }
    }
  }

  /** A pass begins and reads the epoch. */
  lemma PassReads(cfg: Config, run: seq<State>, job: Job) returns (more: seq<State>)
    requires OrderlyRun(cfg, run) && Last(run).pass.Idle? && !Last(run).settled && Listed(cfg, job)
    ensures OrderlyRun(cfg, more) && more[0] == run[0]
    ensures var s, t := Last(run), Last(more);
      t == s.(pass := AtNow(job, s.chain), late := false, start := t.start, vetoed := false)
  {
    var s := Last(run);
    var t := s.(pass := AtEpoch(job), start := MeasureOf(s.chain, s.settled), vetoed := false);
    assert Begins(cfg, s, t);
    more := RunThen(cfg, run, t);
    var u := t.(pass := AtNow(job, t.chain), late := false);
    assert PassStep(cfg, t, u);
    more := RunOn(cfg, more, [t, u]);
  }

  lemma RunThen(cfg: Config, run: seq<State>, t: State) returns (more: seq<State>)
    requires OrderlyRun(cfg, run) && Begins(cfg, Last(run), t)
    ensures OrderlyRun(cfg, more) && Last(more) == t && more[0] == run[0]
  {
    more := run + [t];
  }

  /** A pass reads an epoch that is not posted up to its post, and dies waiting for the receipt. */
  lemma PassLosesPost(cfg: Config, run: seq<State>, job: Job) returns (more: seq<State>)
    requires OrderlyRun(cfg, run) && Last(run).pass.Idle? && !Last(run).settled && Last(run).chain.status.None?
    requires Listed(cfg, job) && Posts(cfg, job)
    ensures OrderlyRun(cfg, more) && more[0] == run[0]
    ensures var s, t := Last(run), Last(more);
      t.pass.Idle? && !t.settled && t.chain.status.None? && t.pending == s.pending + [LatePost(job)]
        && t.calls == s.calls
  {
    more := PassReads(cfg, run, job);
    var y := ReadsToPost(cfg, Last(more), job);
    more := RunOn(cfg, more, y);
    var u := Last(more);
    var v := u.(pass := Idle, pending := u.pending + [LatePost(job)]);
    assert Loses(cfg, u, v);
    assert Mine(cfg.ps, u.chain, LatePost(job)).Some?;
    more := RunOn(cfg, more, [u, v]);
  }

  /** The next pass reads the epoch before that post is mined, and posts the root after its veto. */
  lemma LatePostRun(cfg: Config, s: State, job: Job) returns (run: seq<State>)
    requires cfg.chunk > 0 && cfg.ps.vetoDelay > 0 && Init(s) && Listed(cfg, job) && Posts(cfg, job)
    ensures OrderlyRun(cfg, run) && run[0] == s && Made(Repost, 0, Last(run))
  {
    run := PassLosesPost(cfg, [s], job);
    run := PassReads(cfg, run, job);
    var y := Reposts(cfg, Last(run), job, 0);
    run := RunOn(cfg, run, y);
  }

  predicate NearPost(pass: Pass) { pass.AtEscrow? || pass.AtAllowance? || pass.AtPost? }

  /** Past the branch that posts. */
  predicate Past(pass: Pass) { !NearPost(pass) && !pass.AtEpoch? && !pass.AtNow? }

  /** A pass that is not going to post. */
  predicate Barred(cfg: Config, pass: Pass) {
    Past(pass) || ((pass.AtEpoch? || pass.AtNow?) && !Posts(cfg, pass.job))
  }

  /** Why no run gets there: no veto is possible, or no pass gets to its post. */
  ghost predicate Never(cfg: Config, s: State) {
    !Made(Repost, 0, s) && (cfg.ps.vetoDelay == 0 || Barred(cfg, s.pass))
  }

  lemma StaysBarred(cfg: Config, s: State, t: State)
    requires cfg.chunk > 0 && PassStep(cfg, s, t) && Barred(cfg, s.pass)
    ensures Barred(cfg, t.pass)
  {
    if Past(s.pass) { StaysPast(cfg, s, t); }
    else if s.pass.AtNow? { BarredReads(cfg, s.pass.job, s.pass.on, s.chain.now); }
  }

  lemma StaysPast(cfg: Config, s: State, t: State)
    requires cfg.chunk > 0 && PassStep(cfg, s, t) && Past(s.pass)
    ensures Past(t.pass)
  {
  }

  lemma BarredReads(cfg: Config, job: Job, on: Chain, now: nat)
    requires !Posts(cfg, job)
    ensures Past(AfterReads(cfg, job, on, now))
  {
  }

  /** Only a pass at its post posts. */
  lemma PostsAtPost(cfg: Config, s: State, t: State)
    requires cfg.chunk > 0 && PassStep(cfg, s, t)
    ensures t.calls == s.calls || exists call ::
      t.calls == s.calls + [call] && (call.PostCall? ==> s.pass.AtPost? && call.at == s.chain)
  {
    assert t.calls == s.calls || t.calls == s.calls + [t.calls[|s.calls|]];
  }

  // ---- Only a veto window lets an epoch be vetoed ----

  ghost predicate VetoedInWindow(ps: Params, c: Chain) { c.status.Vetoed? ==> ps.vetoDelay > 0 }

  lemma PassVetoesNothing(cfg: Config, s: State, t: State)
    requires cfg.chunk > 0 && PassStep(cfg, s, t)
    ensures t.chain.status.Vetoed? ==> s.chain.status.Vetoed?
  {
    if s.pass.AtClaim? && s.pass.rest != [] { ClaimForKeeps(cfg.ps, s.chain, s.pass.rest[0], t.chain); }
  }

  lemma ProceedsInWindow(cfg: Config, s: State, t: State)
    requires cfg.chunk > 0 && Inv(cfg, s) && VetoedInWindow(cfg.ps, s.chain) && Proceeds(cfg, s, t)
    ensures VetoedInWindow(cfg.ps, t.chain)
  {
    if PassStep(cfg, s, t) {
      PassVetoesNothing(cfg, s, t);
    } else if k: nat :| MineStep(cfg, s, t, k) {
      if !s.pending[k].LatePost? { MineCalm(cfg, s, t, k); }
    } else if EnvTx(cfg, s.chain, t.chain) && t == s.(chain := t.chain) {
      EnvCalm(cfg, s.chain, t.chain);
    }
  }

  lemma {:induction false} RunInWindow(cfg: Config, run: seq<State>, i: nat)
    requires IsRun(cfg, run) && i < |run|
    ensures Inv(cfg, run[i]) && VetoedInWindow(cfg.ps, run[i].chain)
  {
    RunKeeps(cfg, run, i);
    if i > 0 {
      RunInWindow(cfg, run, i - 1);
      if !Begins(cfg, run[i - 1], run[i]) { ProceedsInWindow(cfg, run[i - 1], run[i]); }
    }
  }

  lemma PassNever(cfg: Config, s: State, t: State)
    requires cfg.chunk > 0 && Never(cfg, s) && PassStep(cfg, s, t) && VetoedInWindow(cfg.ps, s.chain)
    ensures Never(cfg, t)
  {
    PostsAtPost(cfg, s, t);
    NotMade(Repost, 0, s, t);
    if cfg.ps.vetoDelay > 0 { StaysBarred(cfg, s, t); }
  }

  lemma BeginsNever(cfg: Config, s: State, t: State)
    requires Never(cfg, s) && Begins(cfg, s, t)
    requires cfg.ps.vetoDelay > 0 ==> forall job :: Listed(cfg, job) ==> !Posts(cfg, job)
    ensures Never(cfg, t)
  {
    assert Listed(cfg, t.pass.job);
    NotMade(Repost, 0, s, t);
  }

  lemma StepNever(cfg: Config, s: State, t: State)
    requires cfg.chunk > 0 && Never(cfg, s) && Step(cfg, s, t) && VetoedInWindow(cfg.ps, s.chain)
    requires cfg.ps.vetoDelay > 0 ==> forall job :: Listed(cfg, job) ==> !Posts(cfg, job)
    ensures Never(cfg, t)
  {
    if Begins(cfg, s, t) { BeginsNever(cfg, s, t); }
    else if PassStep(cfg, s, t) { PassNever(cfg, s, t); }
    else { NotMade(Repost, 0, s, t); }
  }

  lemma {:induction false} RunNever(cfg: Config, run: seq<State>, i: nat)
    requires IsRun(cfg, run) && i < |run|
    requires cfg.ps.vetoDelay > 0 ==> forall job :: Listed(cfg, job) ==> !Posts(cfg, job)
    ensures Never(cfg, run[i])
  {
    if i > 0 {
      RunNever(cfg, run, i - 1);
      RunInWindow(cfg, run, i - 1);
      StepNever(cfg, run[i - 1], run[i]);
    }
  }

  /** From any start, some run posts a vetoed root if and only if there is a veto window and an epoch to post. */
  lemma RepostRunIff(cfg: Config, s: State)
    requires cfg.chunk > 0 && Init(s)
    ensures (exists run :: IsRun(cfg, run) && run[0] == s && Made(Repost, 0, Last(run)))
      <==> cfg.ps.vetoDelay > 0 && exists job :: Listed(cfg, job) && Posts(cfg, job)
  {
    if cfg.ps.vetoDelay > 0 && exists job :: Listed(cfg, job) && Posts(cfg, job) {
      var job :| Listed(cfg, job) && Posts(cfg, job);
      var run := LatePostRun(cfg, s, job);
      OrderlyRunIsRun(cfg, run);
    } else {
      forall run | IsRun(cfg, run) ensures !Made(Repost, 0, Last(run)) { RunNever(cfg, run, |run| - 1); }
    }
  }
}
