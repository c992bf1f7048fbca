/**
 One epoch of the settlement contract, as the keeper relies on it
 (contract/contracts/v2/CloudanaSettlementV2.sol): posting, the veto window, finalizing, claims and
 clawed lanes. A claim's proof is accepted exactly for the leaves behind the posted root (the tree
 itself is modelled in `KeeperTree`), so the chain carries those leaves.
 */
module Settlement {
  import opened Wrappers
  import opened KeeperTree

  datatype Status = None | Posted | Vetoed | Finalized
  datatype Flags = Flags(a: bool, b: bool, isVoid: bool)

  datatype Chain = Chain(
    now: nat, status: Status, root: Word, posted: seq<WeiLeaf>, totalA: nat, totalB: nat,
    mintedA: nat, mintedB: nat, postedAt: nat, finalizedAt: nat, flags: map<Word, Flags>)

  datatype Params = Params(epoch: nat, epochSeconds: nat, vetoDelay: nat, vest: nat, genesisEpoch: nat)

  function FlagsOf(c: Chain, account: Word): Flags {
    if account in c.flags then c.flags[account] else Flags(false, false, false)
  }

  // ---- Transactions; `Option.None` is a revert ----

  function PostTx(c: Chain, leaves: seq<WeiLeaf>, root: Word, totalA: nat, totalB: nat): Option<Chain> {
    if c.status.None? || c.status.Vetoed? then
      Some(c.(
        status := Posted, root := root, posted := leaves, totalA := totalA, totalB := totalB, postedAt := c.now))
    else Option.None
  }

  function VetoTx(ps: Params, c: Chain): Option<Chain> {
    if c.status.Posted? && c.now < c.postedAt + ps.vetoDelay then Some(c.(status := Vetoed)) else Option.None
  }

  function FinalizeTx(ps: Params, c: Chain): Option<Chain> {
    if c.status.Posted? && c.now >= c.postedAt + ps.vetoDelay then Some(c.(status := Finalized, finalizedAt := c.now))
    else Option.None
  }

  predicate OpenA(c: Chain, l: WeiLeaf) { l.laneA > 0 && !FlagsOf(c, l.account).a }

  predicate OpenB(c: Chain, l: WeiLeaf) { l.laneB > 0 && !FlagsOf(c, l.account).b && !FlagsOf(c, l.account).isVoid }

  predicate Vested(ps: Params, c: Chain) { c.now >= c.finalizedAt + ps.vest }

  /** One claim: the unclaimed lane A, and the unclaimed, unvoided lane B once vested. */
  function ClaimTx(ps: Params, c: Chain, l: WeiLeaf): Option<Chain> {
    if !c.status.Finalized? || l !in c.posted then Option.None else
    var f := FlagsOf(c, l.account);
    var payA, payB := OpenA(c, l), OpenB(c, l) && Vested(ps, c);
    if !payA && !payB then Option.None else
    var mintedA := c.mintedA + if payA then l.laneA else 0;
    var mintedB := c.mintedB + if payB then l.laneB else 0;
    if (payA && mintedA > c.totalA) || (payB && mintedB > c.totalB) then Option.None else
    Some(c.(flags := c.flags[l.account := Flags(f.a || payA, f.b || payB, f.isVoid)],
            mintedA := mintedA, mintedB := mintedB))
  }

  /** `claimFor`: every entry, or nothing at all. */
  function ClaimForTx(ps: Params, c: Chain, entries: seq<WeiLeaf>): Option<Chain>
    decreases |entries|
  {
    if entries == [] then Some(c) else
    var first := ClaimTx(ps, c, entries[0]);
    if first.None? then Option.None else ClaimForTx(ps, first.value, entries[1..])
  }

  function ClawTx(ps: Params, c: Chain, l: WeiLeaf): Option<Chain> {
    var f := FlagsOf(c, l.account);
    if !c.status.Finalized? || Vested(ps, c) || l !in c.posted || f.b || f.isVoid then Option.None
    else Some(c.(flags := c.flags[l.account := f.(isVoid := true)]))
  }

  // ---- Sums over leaves ----

  function SumOf(leaves: seq<WeiLeaf>, f: WeiLeaf -> int): int {
    if leaves == [] then 0 else SumOf(leaves[..|leaves| - 1], f) + f(leaves[|leaves| - 1])
  }

  lemma {:induction false} SumOfMono(leaves: seq<WeiLeaf>, f: WeiLeaf -> int, g: WeiLeaf -> int)
    requires forall l :: l in leaves ==> f(l) <= g(l)
    ensures SumOf(leaves, f) <= SumOf(leaves, g)
    ensures (exists l :: l in leaves && f(l) < g(l)) ==> SumOf(leaves, f) < SumOf(leaves, g)
  {
    if leaves != [] {
      var rest := leaves[..|leaves| - 1];
      SumOfMono(rest, f, g);
      assert leaves == rest + [leaves[|leaves| - 1]];
    }
  }

  lemma SumOfSame(leaves: seq<WeiLeaf>, f: WeiLeaf -> int, g: WeiLeaf -> int)
    requires forall l :: l in leaves ==> f(l) == g(l)
    ensures SumOf(leaves, f) == SumOf(leaves, g)
  {
    SumOfMono(leaves, f, g);
    SumOfMono(leaves, g, f);
  }

  /** One leaf per account. */
  ghost predicate OneLeafEach(leaves: seq<WeiLeaf>) {
    forall i, j :: 0 <= i < j < |leaves| ==> leaves[i].account != leaves[j].account
  }

  /** Changing the value of one account's leaf changes the sum by as much. */
  lemma {:induction false} SumOfPoint(leaves: seq<WeiLeaf>, f: WeiLeaf -> int, g: WeiLeaf -> int, x: WeiLeaf)
    requires OneLeafEach(leaves) && x in leaves && forall l :: l in leaves && l.account != x.account ==> f(l) == g(l)
    ensures SumOf(leaves, g) == SumOf(leaves, f) + g(x) - f(x)
  {
    var n := |leaves| - 1;
    var rest, last := leaves[..n], leaves[n];
    assert leaves == rest + [last];
    if last == x {
      forall l | l in rest ensures f(l) == g(l) {
        var k :| 0 <= k < n && rest[k] == l;
        assert leaves[k].account != leaves[n].account;
      }
      SumOfSame(rest, f, g);
    } else {
      assert x in rest;
      var k :| 0 <= k < n && rest[k] == x;
      assert leaves[k].account != leaves[n].account;
      SumOfPoint(rest, f, g, x);
    }
  }

  // ---- What every transaction keeps ----

  function LaneA(): WeiLeaf -> int { (l: WeiLeaf) => l.laneA }
  function LaneB(): WeiLeaf -> int { (l: WeiLeaf) => l.laneB }
  /** Lane A paid out to a leaf, lane B paid out, and lane B voided unpaid. */
  function PaidA(c: Chain): WeiLeaf -> int { (l: WeiLeaf) => if FlagsOf(c, l.account).a then l.laneA else 0 }
  function PaidB(c: Chain): WeiLeaf -> int { (l: WeiLeaf) => if FlagsOf(c, l.account).b then l.laneB else 0 }
  function VoidB(c: Chain): WeiLeaf -> int { (l: WeiLeaf) => if FlagsOf(c, l.account).isVoid then l.laneB else 0 }
  function OpenLanes(c: Chain): WeiLeaf -> int {
    (l: WeiLeaf) => (if OpenA(c, l) then 1 else 0) + if OpenB(c, l) then 1 else 0
  }

  lemma {:induction false} SumLanesIsSum(leaves: seq<WeiLeaf>)
    ensures SumLanes(leaves) == (SumOf(leaves, LaneA()), SumOf(leaves, LaneB()))
  {
    if leaves != [] { SumLanesIsSum(leaves[..|leaves| - 1]); }
  }

  /** No lane is settled before the epoch is final; lane B is never both paid and void; the totals are the leaves'. */
  ghost predicate ChainOk(c: Chain) {
    && (!c.status.Finalized? ==> c.flags == map[] && c.mintedA == 0 && c.mintedB == 0)
    && (!c.status.None? ==> (c.totalA, c.totalB) == SumLanes(c.posted))
    && (forall x: Word {:trigger FlagsOf(c, x)} :: !(FlagsOf(c, x).b && FlagsOf(c, x).isVoid))
  }

  /** What was minted is what the paid flags say, so no more than the totals, nor than the leaves that are not void. */
  ghost predicate Conserved(c: Chain) {
    c.status.Finalized? ==> c.mintedA == SumOf(c.posted, PaidA(c)) && c.mintedB == SumOf(c.posted, PaidB(c))
  }

  /** A lane once settled stays settled, and a final epoch keeps its root and time. */
  ghost predicate Grows(c: Chain, d: Chain) {
    && c.now <= d.now
    && (forall x: Word {:trigger FlagsOf(d, x)} ::
        (FlagsOf(c, x).a ==> FlagsOf(d, x).a)
        && (FlagsOf(c, x).b ==> FlagsOf(d, x).b) && (FlagsOf(c, x).isVoid ==> FlagsOf(d, x).isVoid))
    && (c.status.Finalized? ==>
      d.status.Finalized? && d.root == c.root && d.posted == c.posted && d.finalizedAt == c.finalizedAt)
  }

  /** A successful claim settles the claimed leaf's lanes as far as vested, and closes at least one lane. */
  lemma ClaimStep(ps: Params, c: Chain, l: WeiLeaf, d: Chain)
    requires ChainOk(c) && ClaimTx(ps, c, l) == Some(d)
    ensures ChainOk(d) && Grows(c, d) && d.now == c.now
    ensures !OpenA(d, l) && (Vested(ps, c) ==> !OpenB(d, l))
    ensures SumOf(d.posted, OpenLanes(d)) < SumOf(c.posted, OpenLanes(c))
  {
    forall x: Word ensures (FlagsOf(c, x).a ==> FlagsOf(d, x).a) && (FlagsOf(c, x).b ==> FlagsOf(d, x).b)
      && (FlagsOf(c, x).isVoid ==> FlagsOf(d, x).isVoid)
    {
    }
    assert OpenLanes(d)(l) < OpenLanes(c)(l);
    SumOfMono(c.posted, OpenLanes(d), OpenLanes(c));
  }

  /** With one leaf per account, a claim mints exactly what its new flags say. */
  lemma ClaimConserves(ps: Params, c: Chain, l: WeiLeaf, d: Chain)
    requires ChainOk(c) && ClaimTx(ps, c, l) == Some(d) && OneLeafEach(c.posted) && Conserved(c)
    ensures Conserved(d)
  {
    SumOfPoint(c.posted, PaidA(c), PaidA(d), l);
    SumOfPoint(c.posted, PaidB(c), PaidB(d), l);
  }

  lemma ClawStep(ps: Params, c: Chain, l: WeiLeaf, d: Chain)
    requires ChainOk(c) && ClawTx(ps, c, l) == Some(d)
    ensures ChainOk(d) && Grows(c, d) && d.now == c.now
    ensures SumOf(d.posted, OpenLanes(d)) <= SumOf(c.posted, OpenLanes(c))
    ensures Conserved(c) ==> Conserved(d)
  {
    var f := FlagsOf(c, l.account);
    forall x: Word ensures FlagsOf(d, x) == if x == l.account then f.(isVoid := true) else FlagsOf(c, x) {
    }
    SumOfMono(c.posted, OpenLanes(d), OpenLanes(c));
    SumOfSame(c.posted, PaidA(d), PaidA(c));
    SumOfSame(c.posted, PaidB(d), PaidB(c));
  }

  lemma {:induction false} ClaimForStep(ps: Params, c: Chain, entries: seq<WeiLeaf>, d: Chain)
    requires ChainOk(c) && ClaimForTx(ps, c, entries) == Some(d)
    ensures ChainOk(d) && Grows(c, d) && d.now == c.now
    ensures forall l :: l in entries ==> !OpenA(d, l) && (Vested(ps, c) ==> !OpenB(d, l))
    ensures SumOf(d.posted, OpenLanes(d)) <= SumOf(c.posted, OpenLanes(c))
    ensures entries != [] ==> c.status.Finalized? && SumOf(d.posted, OpenLanes(d)) < SumOf(c.posted, OpenLanes(c))
    ensures OneLeafEach(c.posted) && Conserved(c) ==> Conserved(d)
    decreases |entries|
  {
    if entries != [] {
      var m := ClaimTx(ps, c, entries[0]).value;
      ClaimStep(ps, c, entries[0], m);
      if OneLeafEach(c.posted) && Conserved(c) { ClaimConserves(ps, c, entries[0], m); }
      ClaimForStep(ps, m, entries[1..], d);
      ClosedStays(m, d, entries[0]);
      assert entries == [entries[0]] + entries[1..];
    }
  }

  lemma ClosedStays(c: Chain, d: Chain, l: WeiLeaf)
    requires Grows(c, d)
    ensures !OpenA(c, l) ==> !OpenA(d, l)
    ensures !OpenB(c, l) ==> !OpenB(d, l)
  {
    assert FlagsOf(d, l.account) == FlagsOf(d, l.account);
  }

  /** At any time no more was minted than posted, and lane B paid and void together fit the lane B total. */
  lemma MintedWithinTotals(c: Chain)
    requires ChainOk(c) && Conserved(c) && c.status.Finalized?
    ensures c.mintedA <= c.totalA && c.mintedB + SumOf(c.posted, VoidB(c)) <= c.totalB
  {
    SumLanesIsSum(c.posted);
    SumOfMono(c.posted, PaidA(c), LaneA());
    SumOfBoth(c, c.posted);
    SumOfMono(c.posted, SettledB(c), LaneB());
  }

  function SettledB(c: Chain): WeiLeaf -> int { (l: WeiLeaf) => PaidB(c)(l) + VoidB(c)(l) }

  lemma {:induction false} SumOfBoth(c: Chain, leaves: seq<WeiLeaf>)
    ensures SumOf(leaves, SettledB(c)) == SumOf(leaves, PaidB(c)) + SumOf(leaves, VoidB(c))
  {
    if leaves != [] { SumOfBoth(c, leaves[..|leaves| - 1]); }
  }

  /** Every lane of every leaf is paid, or for lane B void. */
  ghost predicate AllSettled(c: Chain, leaves: seq<WeiLeaf>) {
    forall l :: l in leaves ==> !OpenA(c, l) && !OpenB(c, l)
  }

  /** When every leaf is settled, all of lane A was minted, and all of lane B but the voided part. */
  lemma SettledMintsAll(c: Chain)
    requires ChainOk(c) && Conserved(c) && c.status.Finalized? && AllSettled(c, c.posted)
    ensures c.mintedA == c.totalA && c.mintedB + SumOf(c.posted, VoidB(c)) == c.totalB
  {
    SumLanesIsSum(c.posted);
    SumOfSame(c.posted, PaidA(c), LaneA());
    SumOfBoth(c, c.posted);
    forall l | l in c.posted ensures SettledB(c)(l) == LaneB()(l) { assert !OpenB(c, l); }
    SumOfSame(c.posted, SettledB(c), LaneB());
  }
}
