/**
 Storage proofs (shared/storage-proof.ts): a copy is split into leaves, the levels of a binary tree
 are hashed bottom up with an odd last node carried unchanged, and a leaf is checked against the root.
 */
module StorageProof {
  import opened Text
  import opened Wrappers
  import opened Batches

  /** SHA-256 as an arbitrary function of bytes. */
  type Sha = Bytes -> Bytes

  const LEAF_PLAIN_BYTES: int := 65536
  const GCM_TAG_BYTES: int := 16
  const LEAF_BYTES: int := LEAF_PLAIN_BYTES + GCM_TAG_BYTES

  // ---- Sizes and leaf ranges ----

  function Ceil(a: nat, b: nat): nat
    requires b > 0
  {
    (a + b - 1) / b
  }

  function LeafCount(plain: nat): (n: nat)
    ensures n >= 1
    ensures (n - 1) * LEAF_PLAIN_BYTES < plain <= n * LEAF_PLAIN_BYTES || (plain == 0 && n == 1)
  {
    if Ceil(plain, LEAF_PLAIN_BYTES) > 1 then Ceil(plain, LEAF_PLAIN_BYTES) else 1
  }

  function CipherSize(plain: nat): nat { plain + LeafCount(plain) * GCM_TAG_BYTES }

  /** Leaves `MerkleLevels` finds in a copy of `size` bytes. */
  function CopyLeaves(size: nat): (n: nat)
    ensures n >= 1
    ensures (n - 1) * LEAF_BYTES < size <= n * LEAF_BYTES || (size == 0 && n == 1)
  {
    if Ceil(size, LEAF_BYTES) > 1 then Ceil(size, LEAF_BYTES) else 1
  }

  function LeafRange(i: nat, size: nat): (nat, nat) {
    var start := i * LEAF_BYTES;
    (start, if size < start + LEAF_BYTES then size else start + LEAF_BYTES)
  }

  function Leaf(copy: Bytes, i: nat): Bytes
    requires i < CopyLeaves(|copy|)
  {
    var (a, b) := LeafRange(i, |copy|);
    copy[a..b]
  }

  function Leaves(copy: Bytes): seq<Bytes> {
    seq(CopyLeaves(|copy|), i requires 0 <= i < CopyLeaves(|copy|) => Leaf(copy, i))
  }

  /** Bytes of the first `k` leaves of a copy of `size` bytes. */
  function Covered(size: nat, k: nat): nat { if k * LEAF_BYTES <= size then k * LEAF_BYTES else size }

  lemma LeafAt(copy: Bytes, k: nat)
    requires k < CopyLeaves(|copy|)
    ensures Covered(|copy|, k) <= Covered(|copy|, k + 1) <= |copy|
    ensures Leaf(copy, k) == copy[Covered(|copy|, k)..Covered(|copy|, k + 1)]
  {
  }

  lemma {:induction false} LeavesPrefix(copy: Bytes, k: nat)
    requires k <= CopyLeaves(|copy|)
    ensures Covered(|copy|, k) <= |copy| && Flatten(Leaves(copy)[..k]) == copy[..Covered(|copy|, k)]
  {
    if k > 0 {
      LeavesPrefix(copy, k - 1);
      LeafAt(copy, k - 1);
      Glue(copy, Covered(|copy|, k - 1), Covered(|copy|, k));
      FlattenSnoc(Leaves(copy)[..k - 1], Leaf(copy, k - 1));
      assert Leaves(copy)[..k] == Leaves(copy)[..k - 1] + [Leaf(copy, k - 1)];
    }
  }

  /** The leaves of any copy, in order, are the copy; all but the last are full. */
  lemma LeavesPartition(copy: Bytes)
    ensures Flatten(Leaves(copy)) == copy
    ensures forall i :: 0 <= i < |Leaves(copy)| - 1 ==> |Leaves(copy)[i]| == LEAF_BYTES
    ensures |Leaves(copy)[|Leaves(copy)| - 1]| <= LEAF_BYTES && (|copy| > 0 ==> |Leaves(copy)[|Leaves(copy)| - 1]| > 0)
  {
    LeavesPrefix(copy, |Leaves(copy)|);
    assert Leaves(copy)[..|Leaves(copy)|] == Leaves(copy);
  }

  /** Plaintext bytes sealed in leaf `i`. */
  function PlainIn(plain: nat, i: nat): int {
    if plain < (i + 1) * LEAF_PLAIN_BYTES then plain - i * LEAF_PLAIN_BYTES else LEAF_PLAIN_BYTES
  }

  /** The ciphertext of any plaintext size has exactly `LeafCount` leaves, each one plaintext chunk and one tag long. */
  lemma CipherLeaves(plain: nat, copy: Bytes)
    requires |copy| == CipherSize(plain)
    ensures |Leaves(copy)| == LeafCount(plain)
    ensures forall i :: 0 <= i < LeafCount(plain) ==>
      0 <= PlainIn(plain, i) && |Leaves(copy)[i]| == PlainIn(plain, i) + GCM_TAG_BYTES
  {
    var n, m := LeafCount(plain), CopyLeaves(|copy|);
    assert (n - 1) * LEAF_BYTES < |copy| <= n * LEAF_BYTES;
    assert n == m;
    forall i | 0 <= i < n ensures 0 <= PlainIn(plain, i) && |Leaves(copy)[i]| == PlainIn(plain, i) + GCM_TAG_BYTES {
      assert i < n - 1 ==> (i + 1) * LEAF_PLAIN_BYTES <= (n - 1) * LEAF_PLAIN_BYTES;
      assert i < n - 1 ==> (i + 1) * LEAF_BYTES <= (n - 1) * LEAF_BYTES;
    }
  }

  // ---- Hex ----

  predicate IsHex(c: char) { '0' <= c <= '9' || 'a' <= c <= 'f' }

  function HexDigit(x: int): (c: char)
    requires 0 <= x < 16
    ensures IsHex(c) && HexValue(c) == x
  {
    if x < 10 then '0' + x as char else 'a' + (x - 10) as char
  }

  function HexValue(c: char): (x: int)
    requires IsHex(c)
    ensures 0 <= x < 16
  {
    if c <= '9' then c as int - '0' as int else c as int - 'a' as int + 10
  }

  function ToHex(b: Bytes): (s: string)
    ensures |s| == 2 * |b| && forall k :: 0 <= k < |s| ==> IsHex(s[k])
  {
    if b == [] then "" else [HexDigit(b[0] / 16), HexDigit(b[0] % 16)] + ToHex(b[1..])
  }

  function FromHex(s: string): (b: Bytes)
    requires |s| % 2 == 0 && forall k :: 0 <= k < |s| ==> IsHex(s[k])
    ensures |b| == |s| / 2
  {
    if s == "" then [] else [16 * HexValue(s[0]) + HexValue(s[1])] + FromHex(s[2..])
  }

  lemma {:induction false} HexRoundTrip(b: Bytes)
    ensures FromHex(ToHex(b)) == b
  {
    if b != [] {
      assert ToHex(b)[2..] == ToHex(b[1..]);
      HexRoundTrip(b[1..]);
    }
  }

  /** Two lower-case digits a byte, the high half first. */
  lemma {:induction false} ToHexAt(b: Bytes, k: nat)
    requires k < |b|
    ensures ToHex(b)[2 * k] == "0123456789abcdef"[b[k] / 16] && ToHex(b)[2 * k + 1] == "0123456789abcdef"[b[k] % 16]
  {
    if k == 0 {
      HexDigitIs(b[0] / 16);
      HexDigitIs(b[0] % 16);
    } else {
      ToHexAt(b[1..], k - 1);
      assert ToHex(b)[2 * k] == ToHex(b[1..])[2 * (k - 1)];
      assert ToHex(b)[2 * k + 1] == ToHex(b[1..])[2 * (k - 1) + 1];
    }
  }

  lemma HexDigitIs(x: int)
    requires 0 <= x < 16
    ensures HexDigit(x) == "0123456789abcdef"[x]
  {
  }

  lemma {:induction false} HexUnique(s: string)
    requires |s| % 2 == 0 && forall k :: 0 <= k < |s| ==> IsHex(s[k])
    ensures ToHex(FromHex(s)) == s
  {
    if s != "" {
      HexUnique(s[2..]);
      assert FromHex(s)[1..] == FromHex(s[2..]);
      HexPairUnique(s[0], s[1]);
      assert s == [s[0], s[1]] + s[2..];
    }
  }

  lemma HexPairUnique(c: char, d: char)
    requires IsHex(c) && IsHex(d)
    ensures var b := 16 * HexValue(c) + HexValue(d); b / 16 == HexValue(c) && b % 16 == HexValue(d)
    ensures HexDigit(HexValue(c)) == c && HexDigit(HexValue(d)) == d
  {
  }

  // ---- Tree ----

  function LeafHash(sha: Sha, leaf: Bytes): Bytes { sha([0] + leaf) }

  function NodeInput(left: Bytes, right: Bytes): Bytes { [1] + left + right }

  function NodeHash(sha: Sha, left: Bytes, right: Bytes): Bytes { sha(NodeInput(left, right)) }

  /** The level above: neighbours hashed in pairs, an odd last node carried. */
  function Next(sha: Sha, level: seq<Bytes>): seq<Bytes> {
    seq(Ceil(|level|, 2), k requires 0 <= k < Ceil(|level|, 2) => if 2 * k + 1 < |level|
      then NodeHash(sha, level[2 * k], level[2 * k + 1]) else level[2 * k])
  }

  function Levels(sha: Sha, level: seq<Bytes>): (ls: seq<seq<Bytes>>)
    ensures |ls| > 0 && ls[0] == level
    decreases |level|
  {
    if |level| <= 1 then [level] else [level] + Levels(sha, Next(sha, level))
  }

  function Root(sha: Sha, level: seq<Bytes>): Bytes
    requires level != []
    decreases |level|
  {
    if |level| == 1 then level[0] else Root(sha, Next(sha, level))
  }

  function LeafHashes(sha: Sha, leaves: seq<Bytes>): seq<Bytes> {
    seq(|leaves|, i requires 0 <= i < |leaves| => LeafHash(sha, leaves[i]))
  }

  method NextLevel(sha: Sha, prev: seq<Bytes>) returns (next: seq<Bytes>)
    ensures next == Next(sha, prev)
  {
    next := [];
    var i := 0;
    while i < |prev|
      invariant 0 <= i && i == 2 * |next| && |next| <= Ceil(|prev|, 2)
      invariant next == Next(sha, prev)[..|next|]
      decreases |prev| - i
    {
      next := next + [if i + 1 < |prev| then NodeHash(sha, prev[i], prev[i + 1]) else prev[i]];
      i := i + 2;
    }
  }

  /** All levels of a copy's tree: the first holds its leaf hashes, the last the root alone. */
  method MerkleLevels(sha: Sha, copy: Bytes) returns (levels: seq<seq<Bytes>>)
    ensures levels == Levels(sha, LeafHashes(sha, Leaves(copy)))
    ensures |levels[|levels| - 1]| == 1 && levels[|levels| - 1][0] == Root(sha, LeafHashes(sha, Leaves(copy)))
  {
    var n := CopyLeaves(|copy|);
    var level: seq<Bytes> := [];
    for i := 0 to n
      invariant level == LeafHashes(sha, Leaves(copy))[..i]
    {
      level := level + [LeafHash(sha, Leaf(copy, i))];
    }
    assert level == LeafHashes(sha, Leaves(copy));
    levels := [level];
    while |levels[|levels| - 1]| > 1
      invariant |levels| > 0 && |levels[|levels| - 1]| >= 1
      invariant levels[..|levels| - 1] + Levels(sha, levels[|levels| - 1]) == Levels(sha, level)
      invariant Root(sha, levels[|levels| - 1]) == Root(sha, level)
      decreases |levels[|levels| - 1]|
    {
      var next := NextLevel(sha, levels[|levels| - 1]);
      ghost var last := levels[|levels| - 1];
      assert Levels(sha, last) == [last] + Levels(sha, next);
      levels := levels + [next];
    }
  }

  // ---- Paths ----

  predicate Carried(idx: nat, width: nat) { idx == width - 1 && width % 2 == 1 }

  function Sibling(idx: nat): nat { if idx % 2 == 0 then idx + 1 else idx - 1 }

  /** Siblings from the level `level` up. */
  function PathOf(sha: Sha, level: seq<Bytes>, idx: nat): seq<string>
    requires idx < |level|
    decreases |level|
  {
    if |level| == 1 then [] else
    SiblingInside(idx, |level|);
    NextSize(sha, level);
    var rest := PathOf(sha, Next(sha, level), idx / 2);
    if Carried(idx, |level|) then rest else [ToHex(level[Sibling(idx)])] + rest
  }

  method MerklePath(sha: Sha, levels: seq<seq<Bytes>>, i: nat) returns (path: seq<string>)
    requires levels != [] && levels == Levels(sha, levels[0]) && i < |levels[0]|
    ensures path == PathOf(sha, levels[0], i)
  {
    path := [];
    var idx: nat := i;
    assert levels[0..] == levels;
    for l := 0 to |levels| - 1
      invariant levels[l..] == Levels(sha, levels[l]) && idx < |levels[l]|
      invariant path + PathOf(sha, levels[l], idx) == PathOf(sha, levels[0], i)
    {
      LevelsStep(sha, levels[l], levels[l..]);
      assert levels[l..][1..] == levels[l + 1..];
      var width := |levels[l]|;
      PathNext(sha, levels[l], levels[l + 1], idx, path, PathOf(sha, levels[0], i));
      if !Carried(idx, width) { path := path + [ToHex(levels[l][Sibling(idx)])]; }
      idx := idx / 2;
    }
    LevelsLast(sha, levels[|levels| - 1], levels[|levels| - 1..]);
  }

  lemma LevelsStep(sha: Sha, level: seq<Bytes>, ls: seq<seq<Bytes>>)
    requires ls == Levels(sha, level) && |ls| > 1
    ensures |level| > 1 && ls[1..] == Levels(sha, ls[1]) && ls[1] == Next(sha, level)
  {
  }

  lemma LevelsLast(sha: Sha, level: seq<Bytes>, ls: seq<seq<Bytes>>)
    requires ls == Levels(sha, level) && |ls| == 1
    ensures |level| <= 1
  {
  }

  // ---- Checker ----

  /** The hash above `h`, given its sibling. */
  function Above(sha: Sha, h: Bytes, sib: Bytes, idx: nat): Bytes { sha(AboveInput(h, sib, idx)) }

  function AboveInput(h: Bytes, sib: Bytes, idx: nat): Bytes {
    if idx % 2 == 0 then NodeInput(h, sib) else NodeInput(sib, h)
  }

  /** The rest of the check, from a node `h` at position `idx` of a level of `width` nodes. */
  predicate Climbs(sha: Sha, h: Bytes, idx: nat, width: nat, path: seq<string>, root: string)
    decreases width
  {
    if width <= 1 then path == [] && ToHex(h) == root
    else if Carried(idx, width) then Climbs(sha, h, idx / 2, Ceil(width, 2), path, root)
    else
      && path != [] && IsHash(path[0])
      && Climbs(sha, Above(sha, h, FromHex(path[0]), idx), idx / 2, Ceil(width, 2), path[1..], root)
  }

  method VerifyLeaf(sha: Sha, leaf: Bytes, i: int, leaves: int, path: seq<string>, root: string) returns (ok: bool)
    ensures ok <==> 0 <= i < leaves && Climbs(sha, LeafHash(sha, leaf), i, leaves, path, root)
  {
    if i < 0 || i >= leaves { return false; }
    var h := LeafHash(sha, leaf);
    var idx: nat, width: nat, used: nat := i, leaves, 0;
    assert path[0..] == path;
    while width > 1
      invariant used <= |path|
      invariant Climbs(sha, h, idx, width, path[used..], root)
        <==> Climbs(sha, LeafHash(sha, leaf), i, leaves, path, root)
      decreases width
    {
      if !Carried(idx, width) {
        if used >= |path| || !IsHash(path[used]) { return false; }
        var sib := FromHex(path[used]);
        assert path[used..][1..] == path[used + 1..];
        used := used + 1;
        h := if idx % 2 == 0 then NodeHash(sha, h, sib) else NodeHash(sha, sib, h);
      }
      idx := idx / 2;
      width := Ceil(width, 2);
    }
    ok := used == |path| && ToHex(h) == root;
  }

  // ---- The checker accepts exactly the leaf and its path ----

  ghost predicate Digests(sha: Sha) { forall x :: |sha(x)| == 32 }

  predicate DigestLevel(level: seq<Bytes>) { forall k :: 0 <= k < |level| ==> |level[k]| == 32 }

  /** Inputs hashed to build the levels above `level`. */
  ghost function TreeInputs(sha: Sha, level: seq<Bytes>): set<Bytes>
    decreases |level|
  {
    if |level| <= 1 then {} else LevelInputs(level) + TreeInputs(sha, Next(sha, level))
  }

  ghost function LevelInputs(level: seq<Bytes>): set<Bytes> {
    set k | 0 <= k < |level| && 2 * k + 1 < |level| :: NodeInput(level[2 * k], level[2 * k + 1])
  }

  /** Inputs hashed by the check. */
  ghost function CheckInputs(sha: Sha, h: Bytes, idx: nat, width: nat, path: seq<string>): set<Bytes>
    decreases width
  {
    if width <= 1 then {}
    else if Carried(idx, width) then CheckInputs(sha, h, idx / 2, Ceil(width, 2), path)
    else if path == [] || !IsHash(path[0]) then {}
    else
      {AboveInput(h, FromHex(path[0]), idx)}
      + CheckInputs(sha, Above(sha, h, FromHex(path[0]), idx), idx / 2, Ceil(width, 2), path[1..])
  }

  lemma NextDigests(sha: Sha, level: seq<Bytes>)
    requires Digests(sha) && DigestLevel(level)
    ensures DigestLevel(Next(sha, level))
  {
  }

  lemma HexOf(d: Bytes)
    requires |d| == 32
    ensures IsHash(ToHex(d)) && FromHex(ToHex(d)) == d
  {
    HexRoundTrip(d);
  }

  lemma SiblingInside(idx: nat, width: nat)
    requires idx < width
    ensures !Carried(idx, width) ==> Sibling(idx) < width
    ensures idx / 2 < Ceil(width, 2) && (width > 1 ==> Ceil(width, 2) < width)
  {
  }

  lemma NextSize(sha: Sha, level: seq<Bytes>)
    ensures |Next(sha, level)| == Ceil(|level|, 2)
  {
  }

  /** One level of the tree, with the level above named. */
  lemma LevelUp(sha: Sha, level: seq<Bytes>, next: seq<Bytes>, idx: nat, k: nat)
    requires |level| > 1 && next == Next(sha, level) && idx < |level| && k == idx / 2
    ensures |next| == Ceil(|level|, 2) < |level| && k < |next| && Root(sha, level) == Root(sha, next)
    ensures Carried(idx, |level|) ==> PathOf(sha, level, idx) == PathOf(sha, next, k)
    ensures !Carried(idx, |level|) ==>
      Sibling(idx) < |level| && PathOf(sha, level, idx) == [ToHex(level[Sibling(idx)])] + PathOf(sha, next, k)
  {
    SiblingInside(idx, |level|);
    NextSize(sha, level);
    assert PathOf(sha, level, idx) == (var rest := PathOf(sha, next, k);
      if Carried(idx, |level|) then rest else [ToHex(level[Sibling(idx)])] + rest);
  }

  /** The path so far and the path from here on, one level up. */
  lemma PathNext(sha: Sha, level: seq<Bytes>, next: seq<Bytes>, idx: nat, path: seq<string>, whole: seq<string>)
    requires |level| > 1 && next == Next(sha, level) && idx < |level| && path + PathOf(sha, level, idx) == whole
    ensures idx / 2 < |next| && (!Carried(idx, |level|) ==> Sibling(idx) < |level|)
    ensures (if Carried(idx, |level|) then path else path + [ToHex(level[Sibling(idx)])]) + PathOf(sha, next, idx / 2)
      == whole
  {
    LevelUp(sha, level, next, idx, idx / 2);
    var rest := PathOf(sha, next, idx / 2);
    if !Carried(idx, |level|) { Reassociate(path, ToHex(level[Sibling(idx)]), rest); }
  }

  lemma Reassociate(path: seq<string>, x: string, rest: seq<string>)
    ensures path + ([x] + rest) == (path + [x]) + rest
  {
  }

  /** One step of the check, with what it leaves to check named. */
  lemma ClimbUp(sha: Sha, h: Bytes, idx: nat, width: nat, path: seq<string>, root: string, k: nat, w: nat)
    requires width > 1 && k == idx / 2 && w == Ceil(width, 2)
    ensures Carried(idx, width) ==> Climbs(sha, h, idx, width, path, root) == Climbs(sha, h, k, w, path, root)
    ensures !Carried(idx, width) ==> (Climbs(sha, h, idx, width, path, root) <==>
      path != [] && IsHash(path[0]) && Climbs(sha, Above(sha, h, FromHex(path[0]), idx), k, w, path[1..], root))
  {
  }

  /** Completeness: the node at `idx` climbs to the root along its own path. */
  lemma {:induction false} OwnPathClimbs(sha: Sha, level: seq<Bytes>, idx: nat)
    requires Digests(sha) && DigestLevel(level) && idx < |level|
    ensures Climbs(sha, level[idx], idx, |level|, PathOf(sha, level, idx), ToHex(Root(sha, level)))
    decreases |level|
  {
    if |level| > 1 {
      var next, k := Next(sha, level), idx / 2;
      NextDigests(sha, level);
      LevelUp(sha, level, next, idx, k);
      OwnPathClimbs(sha, next, k);
      OwnStep(sha, level, next, idx, k, PathOf(sha, next, k), ToHex(Root(sha, level)));
    }
  }

  lemma OwnStep(sha: Sha, level: seq<Bytes>, next: seq<Bytes>, idx: nat, k: nat, rest: seq<string>, root: string)
    requires |level| > 1 && DigestLevel(level) && next == Next(sha, level) && idx < |level| && k == idx / 2
      && k < |next|
    requires Climbs(sha, next[k], k, |next|, rest, root)
    ensures Carried(idx, |level|) ==> Climbs(sha, level[idx], idx, |level|, rest, root)
    ensures !Carried(idx, |level|) ==>
      Sibling(idx) < |level| && Climbs(sha, level[idx], idx, |level|, [ToHex(level[Sibling(idx)])] + rest, root)
  {
    if Carried(idx, |level|) {
      CarriedAbove(sha, level, idx, k);
      ClimbUp(sha, level[idx], idx, |level|, rest, root, k, |next|);
    } else {
      PairAbove(sha, level, idx, k);
      var path := [ToHex(level[Sibling(idx)])] + rest;
      HexOf(level[Sibling(idx)]);
      assert path[1..] == rest;
      ClimbUp(sha, level[idx], idx, |level|, path, root, k, |next|);
    }
  }

  lemma PairAt(sha: Sha, level: seq<Bytes>, k: nat)
    requires 2 * k + 1 < |level|
    ensures k < |Next(sha, level)| && Next(sha, level)[k] == NodeHash(sha, level[2 * k], level[2 * k + 1])
    ensures NodeInput(level[2 * k], level[2 * k + 1]) in LevelInputs(level)
  {
  }

  lemma PairAbove(sha: Sha, level: seq<Bytes>, idx: nat, k: nat)
    requires idx < |level| && !Carried(idx, |level|) && k == idx / 2
    ensures Sibling(idx) < |level| && k < |Next(sha, level)|
      && Next(sha, level)[k] == Above(sha, level[idx], level[Sibling(idx)], idx)
    ensures AboveInput(level[idx], level[Sibling(idx)], idx) in LevelInputs(level)
  {
    Halves(idx, |level|, k);
    PairAt(sha, level, k);
    var left, right := level[2 * k], level[2 * k + 1];
    if idx == 2 * k { EvenCase(left, right, idx); } else { OddCase(left, right, idx); }
  }

  lemma EvenCase(left: Bytes, right: Bytes, idx: nat)
    requires idx % 2 == 0
    ensures AboveInput(left, right, idx) == NodeInput(left, right)
  {
  }

  lemma OddCase(left: Bytes, right: Bytes, idx: nat)
    requires idx % 2 == 1
    ensures AboveInput(right, left, idx) == NodeInput(left, right)
  {
  }

  lemma Halves(idx: nat, width: nat, k: nat)
    requires idx < width && !Carried(idx, width) && k == idx / 2
    ensures 2 * k + 1 < width && (if idx % 2 == 0 then idx == 2 * k else idx == 2 * k + 1)
  {
  }

  lemma CarriedAbove(sha: Sha, level: seq<Bytes>, idx: nat, k: nat)
    requires idx < |level| && Carried(idx, |level|) && k == idx / 2
    ensures k < |Next(sha, level)| && Next(sha, level)[k] == level[idx]
  {
  }

  lemma NodeInputInjective(a: Bytes, b: Bytes, c: Bytes, d: Bytes)
    requires NodeInput(a, b) == NodeInput(c, d) && |a| == |c|
    ensures a == c && b == d
  {
    assert NodeInput(a, b)[1..][..|a|] == a && NodeInput(c, d)[1..][..|a|] == c;
    assert NodeInput(a, b)[1 + |a|..] == b && NodeInput(c, d)[1 + |a|..] == d;
  }

  lemma AboveInjective(h: Bytes, s: Bytes, h': Bytes, s': Bytes, idx: nat)
    requires AboveInput(h, s, idx) == AboveInput(h', s', idx) && |h| == |h'| == |s| == |s'| == 32
    ensures h == h' && s == s'
  {
    if idx % 2 == 0 { NodeInputInjective(h, s, h', s'); } else { NodeInputInjective(s, h, s', h'); }
  }

  lemma InputsUp(sha: Sha, level: seq<Bytes>, next: seq<Bytes>, h: Bytes, idx: nat, path: seq<string>, k: nat)
    requires |level| > 1 && next == Next(sha, level) && idx < |level| && k == idx / 2 && |next| == Ceil(|level|, 2)
    requires CollisionFree(sha, TreeInputs(sha, level) + CheckInputs(sha, h, idx, |level|, path))
    ensures Carried(idx, |level|) ==> CollisionFree(sha, TreeInputs(sha, next) + CheckInputs(sha, h, k, |next|, path))
    ensures !Carried(idx, |level|) && path != [] && IsHash(path[0]) ==>
      CollisionFree(sha,
        TreeInputs(sha, next) + CheckInputs(sha, Above(sha, h, FromHex(path[0]), idx), k, |next|, path[1..]))
  {
  }

  /** Soundness: whatever climbs to the root from position `idx` is the node there, with that node's path. */
  lemma {:induction false} ClimbsOnlyFromNode(sha: Sha, level: seq<Bytes>, h: Bytes, idx: nat, path: seq<string>)
    requires Digests(sha) && DigestLevel(level) && idx < |level| && |h| == 32
    requires CollisionFree(sha, TreeInputs(sha, level) + CheckInputs(sha, h, idx, |level|, path))
    requires Climbs(sha, h, idx, |level|, path, ToHex(Root(sha, level)))
    ensures h == level[idx] && path == PathOf(sha, level, idx)
    decreases |level|
  {
    if |level| == 1 {
      HexRoundTrip(h);
      HexRoundTrip(level[0]);
    } else {
      var next, k := Next(sha, level), idx / 2;
      NextDigests(sha, level);
      LevelUp(sha, level, next, idx, k);
      ClimbUp(sha, h, idx, |level|, path, ToHex(Root(sha, level)), k, |next|);
      InputsUp(sha, level, next, h, idx, path, k);
      if Carried(idx, |level|) {
        ClimbsOnlyFromNode(sha, next, h, k, path);
        CarriedAbove(sha, level, idx, k);
      } else {
        ClimbsOnlyFromNode(sha, next, Above(sha, h, FromHex(path[0]), idx), k, path[1..]);
        PairAbove(sha, level, idx, k);
        assert LevelInputs(level) <= TreeInputs(sha, level);
        CheckedInput(sha, h, idx, |level|, path);
        SameBelow(sha, TreeInputs(sha, level), CheckInputs(sha, h, idx, |level|, path), level[idx], level[Sibling(idx)],
          h, idx, path);
      }
    }
  }

  lemma SameBelow(sha: Sha, a: set<Bytes>, b: set<Bytes>, x: Bytes, s: Bytes, h: Bytes, idx: nat, path: seq<string>)
    requires |x| == |s| == |h| == 32 && CollisionFree(sha, a + b) && path != [] && IsHash(path[0])
    requires AboveInput(x, s, idx) in a && AboveInput(h, FromHex(path[0]), idx) in b
      && Above(sha, h, FromHex(path[0]), idx) == Above(sha, x, s, idx)
    ensures h == x && path == [ToHex(s)] + path[1..]
  {
    HashHex(path[0]);
    SameChildren(sha, a, b, x, s, h, FromHex(path[0]), idx);
    assert path == [path[0]] + path[1..];
  }

  /** Equal parents have equal children. */
  lemma SameChildren(sha: Sha, a: set<Bytes>, b: set<Bytes>, x: Bytes, s: Bytes, h: Bytes, sib: Bytes, idx: nat)
    requires |x| == |s| == |h| == |sib| == 32 && CollisionFree(sha, a + b)
    requires AboveInput(x, s, idx) in a && AboveInput(h, sib, idx) in b
      && Above(sha, h, sib, idx) == Above(sha, x, s, idx)
    ensures h == x && sib == s
  {
    CollisionFreeAt(sha, a, b, AboveInput(x, s, idx), AboveInput(h, sib, idx));
    AboveInjective(h, sib, x, s, idx);
  }

  lemma HashHex(s: string)
    requires IsHash(s)
    ensures ToHex(FromHex(s)) == s && |FromHex(s)| == 32
  {
    HexUnique(s);
  }

  lemma CheckedInput(sha: Sha, h: Bytes, idx: nat, width: nat, path: seq<string>)
    requires width > 1 && !Carried(idx, width) && path != [] && IsHash(path[0])
    ensures AboveInput(h, FromHex(path[0]), idx) in CheckInputs(sha, h, idx, width, path)
  {
  }

  lemma CollisionFreeAt(sha: Sha, a: set<Bytes>, b: set<Bytes>, x: Bytes, y: Bytes)
    requires CollisionFree(sha, a + b) && x in a && y in b && sha(x) == sha(y)
    ensures x == y
  {
  }

  /** Everything hashed for the tree over `leaves` and for one check. */
  ghost function AllInputs(sha: Sha, leaves: seq<Bytes>, leaf: Bytes, i: nat, path: seq<string>): set<Bytes> {
    (set k | 0 <= k < |leaves| :: [0] + leaves[k]) + {[0] + leaf} + TreeInputs(sha, LeafHashes(sha, leaves))
      + CheckInputs(sha, LeafHash(sha, leaf), i, |leaves|, path)
  }

  /** What `VerifyLeaf` answers against the root of a copy. */
  ghost predicate Verifies(sha: Sha, copy: Bytes, leaf: Bytes, i: int, path: seq<string>) {
    0 <= i < |Leaves(copy)|
      && Climbs(sha, LeafHash(sha, leaf), i, |Leaves(copy)|, path, ToHex(Root(sha, LeafHashes(sha, Leaves(copy)))))
  }

  /**
   Against the root of any copy and its leaf count, the check passes exactly for the copy's i-th leaf
   with `MerklePath`'s own path, if the hashes computed for the copy and for the check do not collide.
   */
  lemma VerifiesExactly(sha: Sha, copy: Bytes, leaf: Bytes, i: int, path: seq<string>)
    requires Digests(sha)
    requires i >= 0 ==> CollisionFree(sha, AllInputs(sha, Leaves(copy), leaf, i, path))
    ensures Verifies(sha, copy, leaf, i, path) <==>
      0 <= i < |Leaves(copy)| && leaf == Leaves(copy)[i] && path == PathOf(sha, LeafHashes(sha, Leaves(copy)), i)
  {
    var leaves := Leaves(copy);
    var hashes := LeafHashes(sha, leaves);
    if 0 <= i < |leaves| {
      OwnPathClimbs(sha, hashes, i);
      if Verifies(sha, copy, leaf, i, path) {
        ClimbsOnlyFromNode(sha, hashes, LeafHash(sha, leaf), i, path);
        LeafInputInjective(sha, leaves, leaf, i, path);
      }
    }
  }

  lemma LeafInputInjective(sha: Sha, leaves: seq<Bytes>, leaf: Bytes, i: nat, path: seq<string>)
    requires i < |leaves| && CollisionFree(sha, AllInputs(sha, leaves, leaf, i, path))
      && LeafHash(sha, leaf) == LeafHash(sha, leaves[i])
    ensures leaf == leaves[i]
  {
    assert [0] + leaves[i] in AllInputs(sha, leaves, leaf, i, path)
      && [0] + leaf in AllInputs(sha, leaves, leaf, i, path);
    assert ([0] + leaf)[1..] == leaf && ([0] + leaves[i])[1..] == leaves[i];
  }

  /** Without any assumption on the hash, a leaf served with its own path is accepted. */
  lemma OwnLeafVerifies(sha: Sha, copy: Bytes, i: nat)
    requires Digests(sha) && i < |Leaves(copy)|
    ensures Verifies(sha, copy, Leaves(copy)[i], i, PathOf(sha, LeafHashes(sha, Leaves(copy)), i))
  {
    OwnPathClimbs(sha, LeafHashes(sha, Leaves(copy)), i);
  }

  // ---- The Merkle tree hash of section 2.1 of RFC 6962 ----

  /** The largest power of two smaller than `n`, reached by doubling `k`. */
  function SplitPoint(n: nat, k: nat): (r: nat)
    requires 1 <= k < n
    ensures k <= r < n <= 2 * r
    decreases n - k
  {
    if 2 * k < n then SplitPoint(n, 2 * k) else k
  }

  /** As the RFC writes it: the byte 0 before a leaf, the byte 1 before two hashes. */
  function TreeHash(sha: Sha, leaves: seq<Bytes>): Bytes
    decreases |leaves|
  {
    if leaves == [] then sha([])
    else if |leaves| == 1 then sha([0] + leaves[0])
    else var k := SplitPoint(|leaves|, 1); sha([1] + TreeHash(sha, leaves[..k]) + TreeHash(sha, leaves[k..]))
  }

  /** The two prefixes keep leaves and inner nodes apart: without a collision no leaf's hash is a node's. */
  lemma LeavesAreNotNodes(sha: Sha, leaf: Bytes, left: Bytes, right: Bytes)
    requires CollisionFree(sha, {[0] + leaf, NodeInput(left, right)})
    ensures LeafHash(sha, leaf) != NodeHash(sha, left, right)
  {
    assert ([0] + leaf)[0] != NodeInput(left, right)[0];
  }

  function PowerOfTwo(e: nat): (p: nat)
    ensures p >= 1
  {
    if e == 0 then 1 else 2 * PowerOfTwo(e - 1)
  }

  lemma {:induction false} SplitPointIsPower(n: nat, k: nat, e: nat) returns (e': nat)
    requires 1 <= k < n && k == PowerOfTwo(e)
    ensures SplitPoint(n, k) == PowerOfTwo(e')
    decreases n - k
  {
    if 2 * k < n { e' := SplitPointIsPower(n, 2 * k, e + 1); } else { e' := e; }
  }

  lemma NextOfConcat(sha: Sha, a: seq<Bytes>, b: seq<Bytes>)
    requires |a| % 2 == 0
    ensures Next(sha, a + b) == Next(sha, a) + Next(sha, b)
  {
  }

  lemma RootOfNext(sha: Sha, level: seq<Bytes>)
    requires level != []
    ensures Next(sha, level) != [] && Root(sha, Next(sha, level)) == Root(sha, level)
  {
  }

  lemma NextLength(sha: Sha, a: seq<Bytes>, e: nat)
    requires e > 0 && |a| == PowerOfTwo(e)
    ensures |Next(sha, a)| == PowerOfTwo(e - 1) && |a| % 2 == 0
  {
  }

  /** The root over more than one node joins the roots of the two halves of the RFC's split. */
  lemma {:induction false} RootSplits(sha: Sha, a: seq<Bytes>, b: seq<Bytes>, e: nat)
    requires |a| == PowerOfTwo(e) && 1 <= |b| <= |a|
    ensures Root(sha, a + b) == NodeHash(sha, Root(sha, a), Root(sha, b))
    decreases e
  {
    if e == 0 {
      RootOfPair(sha, a[0], b[0]);
      assert a + b == [a[0], b[0]];
    } else {
      NextLength(sha, a, e);
      NextOfConcat(sha, a, b);
      RootSplits(sha, Next(sha, a), Next(sha, b), e - 1);
      RootOfNext(sha, a + b);
      RootOfNext(sha, a);
      RootOfNext(sha, b);
    }
  }

  lemma RootOfPair(sha: Sha, x: Bytes, y: Bytes)
    ensures Root(sha, [x, y]) == NodeHash(sha, x, y)
  {
    assert Next(sha, [x, y]) == [NodeHash(sha, x, y)];
  }

  lemma LeafHashesSplit(sha: Sha, leaves: seq<Bytes>, k: nat)
    requires k <= |leaves|
    ensures LeafHashes(sha, leaves) == LeafHashes(sha, leaves[..k]) + LeafHashes(sha, leaves[k..])
  {
  }

  /** The level-by-level tree has the root of the recursive tree hash, for every number of leaves. */
  lemma {:induction false} RootIsTreeHash(sha: Sha, leaves: seq<Bytes>)
    requires leaves != []
    ensures Root(sha, LeafHashes(sha, leaves)) == TreeHash(sha, leaves)
    decreases |leaves|
  {
    if |leaves| > 1 {
      var k := SplitPoint(|leaves|, 1);
      var e := SplitPointIsPower(|leaves|, 1, 0);
      RootIsTreeHash(sha, leaves[..k]);
      RootIsTreeHash(sha, leaves[k..]);
      LeafHashesSplit(sha, leaves, k);
      RootSplits(sha, LeafHashes(sha, leaves[..k]), LeafHashes(sha, leaves[k..]), e);
    }
  }
}
