/**
 The keeper's lane-aware Merkle tree (keeper/src/tree.ts): leaves are double hashes, inner nodes hash
 a sorted pair, and the tree is a heap with the ascending leaves at its end, reversed.

 Everything hashed is a whole number of 32-byte words: four for an ABI-encoded leaf, one for a
 digest, two for a pair. So keccak is a function of word sequences, and a digest is a word.
 */
module KeeperTree {
  import opened Wrappers

  type Word = nat
  type Keccak = seq<Word> -> Word

  const UCLD_TO_WEI: int := 1_000_000_000_000
  const WORD_MAX: int :=
    0x1_0000_0000_0000_0000 * 0x1_0000_0000_0000_0000 * 0x1_0000_0000_0000_0000 * 0x1_0000_0000_0000_0000 - 1

  /** Amounts as the API sends them, in millionths of a token. */
  datatype ApiLeaf = ApiLeaf(account: Word, laneAUcld: int, laneBUcld: int)
  datatype WeiLeaf = WeiLeaf(account: Word, laneA: nat, laneB: nat)

  /** A negative amount throws. */
  function ToWei(ucld: int): (r: Result<nat>)
    ensures r.Err? <==> ucld < 0
    ensures r.Ok? ==> r.value == ucld * UCLD_TO_WEI
  {
    if ucld < 0 then Err else Ok(ucld * UCLD_TO_WEI)
  }

  /** Amounts beyond 256 bits make the ABI encoder throw. */
  predicate Encodable(l: WeiLeaf) { l.laneA <= WORD_MAX && l.laneB <= WORD_MAX }

  function ToLeaf(l: ApiLeaf): Result<WeiLeaf> {
    var a, b := ToWei(l.laneAUcld), ToWei(l.laneBUcld);
    if a.Err? || b.Err? || !Encodable(WeiLeaf(l.account, a.value, b.value)) then Err
    else Ok(WeiLeaf(l.account, a.value, b.value))
  }

  function LeafWords(epoch: Word, l: WeiLeaf): seq<Word> { [epoch, l.account, l.laneA, l.laneB] }

  function LeafOf(keccak: Keccak, epoch: Word, l: WeiLeaf): Word { keccak([keccak(LeafWords(epoch, l))]) }

  function PairInput(a: Word, b: Word): seq<Word> { if a < b then [a, b] else [b, a] }

  function HashPair(keccak: Keccak, a: Word, b: Word): Word { keccak(PairInput(a, b)) }

  // ---- Sorting ----

  predicate Ascending(s: seq<int>) { forall i, j :: 0 <= i < j < |s| ==> s[i] <= s[j] }

  function Insert(s: seq<Word>, x: Word): (t: seq<Word>)
    ensures multiset(t) == multiset(s) + multiset{x}
    ensures |t| == |s| + 1
  {
    if s == [] then [x] else if s[0] < x then assert s == [s[0]] + s[1..]; [s[0]] + Insert(s[1..], x) else [x] + s
  }

  lemma {:induction false} InsertAscending(s: seq<Word>, x: Word)
    requires Ascending(s)
    ensures Ascending(Insert(s, x))
  {
    if s != [] && s[0] < x {
      InsertAscending(s[1..], x);
      var t := Insert(s[1..], x);
      forall j | 0 <= j < |t| ensures s[0] <= t[j] {
        assert t[j] in multiset(t);
        assert t[j] in s[1..] || t[j] == x;
      }
    }
  }

  /** The ascending arrangement of `s`. */
  function Sorted(s: seq<Word>): (t: seq<Word>)
    ensures multiset(t) == multiset(s) && |t| == |s| && Ascending(t)
  {
    if s == [] then [] else
      assert s == s[..|s| - 1] + [s[|s| - 1]];
      InsertAscending(Sorted(s[..|s| - 1]), s[|s| - 1]);
      Insert(Sorted(s[..|s| - 1]), s[|s| - 1])
  }

  /** Taking one element out. */
  lemma TakeOut<T>(s: seq<T>, p: nat)
    requires p < |s|
    ensures multiset(s) == multiset(s[..p] + s[p + 1..]) + multiset{s[p]}
  {
    assert s == s[..p] + [s[p]] + s[p + 1..];
  }

  lemma Cancel<T>(a: multiset<T>, b: multiset<T>, x: T)
    requires a + multiset{x} == b + multiset{x}
    ensures a == b
  {
    assert a == (a + multiset{x}) - multiset{x};
    assert b == (b + multiset{x}) - multiset{x};
  }

  lemma FirstIsLeast(s: seq<int>, x: int)
    requires Ascending(s) && x in multiset(s)
    ensures s != [] && s[0] <= x
  {
    assert x in s;
  }

  lemma SameHead(s: seq<int>, t: seq<int>)
    requires Ascending(s) && Ascending(t) && multiset(s) == multiset(t)
    ensures |s| == |t| && (s != [] ==> s[0] == t[0])
  {
    assert |s| == |multiset(s)| == |multiset(t)| == |t|;
    if s != [] {
      assert s[0] in multiset(s) && t[0] in multiset(t);
      FirstIsLeast(s, t[0]);
      FirstIsLeast(t, s[0]);
    }
  }

  lemma SameTails(s: seq<int>, t: seq<int>)
    requires s != [] && t != [] && s[0] == t[0] && multiset(s) == multiset(t)
    ensures multiset(s[1..]) == multiset(t[1..])
  {
    PermutedTail(s, t, 0);
    assert t[..0] + t[1..] == t[1..];
  }

  lemma AscendingTail(s: seq<int>)
    requires Ascending(s) && s != []
    ensures Ascending(s[1..])
  {
  }

  lemma {:induction false} AscendingUnique(s: seq<int>, t: seq<int>)
    requires Ascending(s) && Ascending(t) && multiset(s) == multiset(t)
    ensures s == t
  {
    SameHead(s, t);
    if s != [] {
      SameTails(s, t);
      AscendingTail(s);
      AscendingTail(t);
      AscendingUnique(s[1..], t[1..]);
      assert s == [s[0]] + s[1..] && t == [t[0]] + t[1..];
    }
  }

  /** The hashes in the order of the indices. */
  function Values(hashes: seq<Word>, order: seq<nat>): seq<Word>
    requires forall k :: 0 <= k < |order| ==> order[k] < |hashes|
  {
    seq(|order|, k requires 0 <= k < |order| => hashes[order[k]])
  }

  /** Every index below `k`, once. */
  predicate Permutes(order: seq<nat>, k: nat) {
    && |order| == k && (forall p :: 0 <= p < k ==> order[p] < k)
    && (forall p, q :: 0 <= p < q < k ==> order[p] != order[q])
    && forall j :: 0 <= j < k ==> j in order
  }

  /** The leaf indices by ascending hash. */
  method SortIndices(hashes: seq<Word>) returns (order: seq<nat>)
    ensures Permutes(order, |hashes|) && Values(hashes, order) == Sorted(hashes)
  {
    order := [];
    for k := 0 to |hashes|
      invariant Permutes(order, k)
      invariant Ascending(Values(hashes, order)) && multiset(Values(hashes, order)) == multiset(hashes[..k])
    {
      ghost var before := order;
      order := InsertIndex(hashes, order, k);
      assert hashes[..k + 1] == hashes[..k] + [hashes[k]];
    }
    assert hashes[..|hashes|] == hashes;
    AscendingUnique(Values(hashes, order), Sorted(hashes));
  }

  method InsertIndex(hashes: seq<Word>, order: seq<nat>, k: nat) returns (out: seq<nat>)
    requires k < |hashes| && Permutes(order, k) && Ascending(Values(hashes, order))
    ensures Permutes(out, k + 1) && Ascending(Values(hashes, out))
    ensures multiset(Values(hashes, out)) == multiset(Values(hashes, order)) + multiset{hashes[k]}
  {
    var p := 0;
    while p < |order| && hashes[order[p]] < hashes[k]
      invariant 0 <= p <= |order| && forall q :: 0 <= q < p ==> hashes[order[q]] < hashes[k]
    {
      p := p + 1;
    }
    out := order[..p] + [k] + order[p..];
    PermutesInsert(order, k, p);
    ghost var vals := Values(hashes, order);
    ValuesInsert(hashes, order, k, p);
    AscendingInsert(vals, p, hashes[k]);
  }

  lemma ValuesInsert(hashes: seq<Word>, order: seq<nat>, k: nat, p: nat)
    requires k < |hashes| && p <= |order| && forall q :: 0 <= q < |order| ==> order[q] < |hashes|
    ensures var vals := Values(hashes, order); var out := Values(hashes, order[..p] + [k] + order[p..]);
      out == vals[..p] + [hashes[k]] + vals[p..] && multiset(out) == multiset(vals) + multiset{hashes[k]}
  {
    var vals := Values(hashes, order);
    assert vals == vals[..p] + vals[p..];
    assert Values(hashes, order[..p] + [k] + order[p..]) == vals[..p] + [hashes[k]] + vals[p..];
  }

  lemma PermutesInsert(order: seq<nat>, k: nat, p: nat)
    requires Permutes(order, k) && p <= k
    ensures Permutes(order[..p] + [k] + order[p..], k + 1)
  {
    var out := order[..p] + [k] + order[p..];
    forall j | 0 <= j < k + 1 ensures j in out {
      if j == k { assert out[p] == k; } else {
        assert j in order;
        var q :| 0 <= q < |order| && order[q] == j;
        assert out[if q < p then q else q + 1] == j;
      }
    }
  }

  lemma AscendingInsert(s: seq<int>, p: nat, x: int)
    requires Ascending(s) && p <= |s| && (forall q :: 0 <= q < p ==> s[q] < x) && (p < |s| ==> x <= s[p])
    ensures Ascending(s[..p] + [x] + s[p..])
  {
  }

  // ---- Heap ----

  ghost predicate InnerNode(keccak: Keccak, t: seq<Word>, i: nat) {
    2 * i + 2 < |t| && t[i] == HashPair(keccak, t[2 * i + 1], t[2 * i + 2])
  }

  ghost predicate LeafNode(s: seq<Word>, t: seq<Word>, i: nat) {
    i < |t| && 0 <= 2 * |s| - 2 - i < |s| && t[i] == s[2 * |s| - 2 - i]
  }

  /** `t` from index `from` on is the tree over the ascending leaf hashes `s`. */
  ghost predicate HeapFrom(keccak: Keccak, s: seq<Word>, t: seq<Word>, from: nat) {
    && |s| > 0 && |t| == 2 * |s| - 1
    && (forall i: nat {:trigger InnerNode(keccak, t, i)} :: from <= i < |s| - 1 ==> InnerNode(keccak, t, i))
    && forall i: nat {:trigger LeafNode(s, t, i)} :: |s| - 1 <= i < |t| ==> LeafNode(s, t, i)
  }

  ghost predicate IsHeap(keccak: Keccak, s: seq<Word>, t: seq<Word>) { HeapFrom(keccak, s, t, 0) }

  /** The leaves determine the whole tree. */
  lemma {:induction false} HeapUnique(keccak: Keccak, s: seq<Word>, t: seq<Word>, u: seq<Word>, i: nat)
    requires IsHeap(keccak, s, t) && IsHeap(keccak, s, u) && i <= |t|
    ensures t[i..] == u[i..]
    decreases |t| - i
  {
    if i < |t| {
      HeapUnique(keccak, s, t, u, i + 1);
      if i < |s| - 1 {
        assert InnerNode(keccak, t, i) && InnerNode(keccak, u, i);
        assert t[2 * i + 1] == t[i + 1..][i] && t[2 * i + 2] == t[i + 1..][i + 1];
        assert u[2 * i + 1] == u[i + 1..][i] && u[2 * i + 2] == u[i + 1..][i + 1];
      } else {
        assert LeafNode(s, t, i) && LeafNode(s, u, i);
      }
      assert t[i..] == [t[i]] + t[i + 1..] && u[i..] == [u[i]] + u[i + 1..];
    }
  }

  /** The tree with its leaves placed and inner nodes `i` and up hashed, hashed down to the root. */
  function Hashed(keccak: Keccak, t: seq<Word>, i: nat): (h: seq<Word>)
    requires 2 * i < |t|
    ensures |h| == |t|
    decreases i
  {
    if i == 0 then t else Hashed(keccak, t[i - 1 := HashPair(keccak, t[2 * i - 1], t[2 * i])], i - 1)
  }

  function Placement(s: seq<Word>): seq<Word>
    requires s != []
  {
    seq(2 * |s| - 1, k requires 0 <= k < 2 * |s| - 1 => if k >= |s| - 1 then s[2 * |s| - 2 - k] else 0)
  }

  /** The nodes of the tree over the ascending leaf hashes `s`. */
  function NodesOf(keccak: Keccak, s: seq<Word>): (t: seq<Word>)
    requires s != []
    ensures |t| == 2 * |s| - 1
  {
    Hashed(keccak, Placement(s), |s| - 1)
  }

  lemma {:induction false} HashedIsHeap(keccak: Keccak, s: seq<Word>, t: seq<Word>, i: nat)
    requires i < |s| && HeapFrom(keccak, s, t, i)
    ensures IsHeap(keccak, s, Hashed(keccak, t, i))
    decreases i
  {
    if i > 0 {
      var t' := t[i - 1 := HashPair(keccak, t[2 * i - 1], t[2 * i])];
      HeapStep(keccak, s, t, t', i - 1);
      HashedIsHeap(keccak, s, t', i - 1);
    }
  }

  lemma NodesAreHeap(keccak: Keccak, s: seq<Word>)
    requires s != []
    ensures IsHeap(keccak, s, NodesOf(keccak, s))
  {
    var t := Placement(s);
    forall k: nat | |s| - 1 <= k < |t| ensures LeafNode(s, t, k) { }
    HashedIsHeap(keccak, s, t, |s| - 1);
  }

  /** The root of the tree over `leaves`; 0 for none. */
  function RootOf(keccak: Keccak, epoch: Word, leaves: seq<WeiLeaf>): Word {
    if leaves == [] then 0 else NodesOf(keccak, Sorted(LeafHashes(keccak, epoch, leaves)))[0]
  }

  function SiblingOf(i: nat): nat
    requires i > 0
  {
    if i % 2 == 1 then i + 1 else i - 1
  }

  function Parent(i: nat): (p: nat)
    requires i > 0
    ensures p < i && (i == 2 * p + 1 || i == 2 * p + 2)
    ensures SiblingOf(i) == if i == 2 * p + 1 then 2 * p + 2 else 2 * p + 1
  {
    (i - 1) / 2
  }

  /** Siblings from index `i` up to the root. */
  function ProofOf(t: seq<Word>, i: nat): seq<Word>
    requires i < |t| && |t| % 2 == 1
  {
    if i == 0 then [] else [t[SiblingOf(i)]] + ProofOf(t, Parent(i))
  }

  /** `processProof`: the proof folded onto the leaf. */
  function Fold(keccak: Keccak, leaf: Word, proof: seq<Word>): Word
    decreases |proof|
  {
    if proof == [] then leaf else Fold(keccak, HashPair(keccak, leaf, proof[0]), proof[1..])
  }

  method ProcessProof(keccak: Keccak, leaf: Word, proof: seq<Word>) returns (root: Word)
    ensures root == Fold(keccak, leaf, proof)
  {
    root := leaf;
    assert proof[0..] == proof;
    for k := 0 to |proof|
      invariant Fold(keccak, root, proof[k..]) == Fold(keccak, leaf, proof)
    {
      assert proof[k..][1..] == proof[k + 1..];
      root := HashPair(keccak, root, proof[k]);
    }
  }

  datatype Tree = Tree(root: Word, leaves: seq<WeiLeaf>, leafHashes: seq<Word>, proofs: seq<seq<Word>>)

  /** The hashes of the API's leaves, in its order; `Err` where one amount is refused. */
  function WeiLeaves(api: seq<ApiLeaf>): (r: Result<seq<WeiLeaf>>)
    ensures r.Ok? <==> forall k :: 0 <= k < |api| ==> ToLeaf(api[k]).Ok?
    ensures r.Ok? ==> |r.value| == |api| && forall k :: 0 <= k < |api| ==> r.value[k] == ToLeaf(api[k]).value
  {
    if api == [] then Ok([]) else
    var rest, last := WeiLeaves(api[..|api| - 1]), ToLeaf(api[|api| - 1]);
    if rest.Ok? && last.Ok? then Ok(rest.value + [last.value]) else Err
  }

  function LeafHashes(keccak: Keccak, epoch: Word, leaves: seq<WeiLeaf>): (hs: seq<Word>)
    ensures |hs| == |leaves| && forall k :: 0 <= k < |hs| ==> hs[k] == LeafOf(keccak, epoch, leaves[k])
  {
    seq(|leaves|, k requires 0 <= k < |leaves| => LeafOf(keccak, epoch, leaves[k]))
  }

  /** Every leaf hash in its place: position `p` of the ascending order is tree index `2n - 2 - p`. */
  method PlaceLeaves(hashes: seq<Word>, order: seq<nat>) returns (tree: array<Word>, treeIndexOf: array<nat>)
    requires |hashes| > 0 && Permutes(order, |hashes|)
    ensures fresh(tree) && fresh(treeIndexOf) && tree.Length == 2 * |hashes| - 1 && treeIndexOf.Length == |hashes|
    ensures forall p :: 0 <= p < |hashes| ==> Placed(hashes, order, tree[..], treeIndexOf[..], p)
  {
    var n := |hashes|;
    tree := new Word[2 * n - 1](_ => 0);
    treeIndexOf := new nat[n](_ => 0);
    for p := 0 to n
      invariant forall q :: 0 <= q < p ==> Placed(hashes, order, tree[..], treeIndexOf[..], q)
    {
      var ti := 2 * n - 2 - p;
      ghost var tree0, index0 := tree[..], treeIndexOf[..];
      tree[ti] := hashes[order[p]];
      treeIndexOf[order[p]] := ti;
      forall q | 0 <= q < p ensures Placed(hashes, order, tree[..], treeIndexOf[..], q) {
        assert Placed(hashes, order, tree0, index0, q);
      }
    }
  }

  ghost predicate Placed(hashes: seq<Word>, order: seq<nat>, tree: seq<Word>, index: seq<nat>, p: nat) {
    && p < |order| && order[p] < |hashes| && order[p] < |index| && 0 <= 2 * |hashes| - 2 - p < |tree|
    && tree[2 * |hashes| - 2 - p] == hashes[order[p]] && index[order[p]] == 2 * |hashes| - 2 - p
  }

  lemma PlacedLeaf(hashes: seq<Word>, order: seq<nat>, tree: seq<Word>, index: seq<nat>, k: nat)
    requires Permutes(order, |hashes|) && k < |hashes| == |index| && |tree| == 2 * |hashes| - 1
    requires forall p :: 0 <= p < |hashes| ==> Placed(hashes, order, tree, index, p)
    ensures LeafAt(hashes, tree, index[k], k)
  {
    assert k in order;
    var q :| 0 <= q < |order| && order[q] == k;
    assert Placed(hashes, order, tree, index, q);
  }

  lemma PlacedLeaves(keccak: Keccak, hashes: seq<Word>, order: seq<nat>, tree: seq<Word>, index: seq<nat>, s: seq<Word>)
    requires |hashes| > 0 && Permutes(order, |hashes|) && Values(hashes, order) == s && |tree| == 2 * |hashes| - 1
    requires forall p :: 0 <= p < |hashes| ==> Placed(hashes, order, tree, index, p)
    ensures HeapFrom(keccak, s, tree, |hashes| - 1)
  {
    forall i: nat | |s| - 1 <= i < |tree| ensures LeafNode(s, tree, i) {
      assert Placed(hashes, order, tree, index, 2 * |s| - 2 - i);
    }
  }

  /** Leaf `k` is at tree index `i`. */
  ghost predicate LeafAt(hashes: seq<Word>, tree: seq<Word>, i: nat, k: nat) {
    |hashes| - 1 <= i < |tree| && k < |hashes| && tree[i] == hashes[k]
  }

  /** The inner nodes, from the last one down to the root; the leaves stay. */
  method HashInner(keccak: Keccak, tree: array<Word>, ghost s: seq<Word>)
    requires |s| > 0 && HeapFrom(keccak, s, tree[..], |s| - 1)
    modifies tree
    ensures IsHeap(keccak, s, tree[..]) && forall i :: |s| - 1 <= i < tree.Length ==> tree[i] == old(tree[i])
  {
    var n := (tree.Length + 1) / 2;
    for i := n - 1 downto 0
      invariant HeapFrom(keccak, s, tree[..], i)
      invariant forall j :: |s| - 1 <= j < tree.Length ==> tree[j] == old(tree[j])
    {
      ghost var before := tree[..];
      tree[i] := HashPair(keccak, tree[2 * i + 1], tree[2 * i + 2]);
      HeapStep(keccak, s, before, tree[..], i);
    }
  }

  lemma HeapStep(keccak: Keccak, s: seq<Word>, t: seq<Word>, t': seq<Word>, i: nat)
    requires i < |s| - 1 && HeapFrom(keccak, s, t, i + 1) && t' == t[i := HashPair(keccak, t[2 * i + 1], t[2 * i + 2])]
    ensures HeapFrom(keccak, s, t', i)
  {
    forall j: nat | i <= j < |s| - 1 ensures InnerNode(keccak, t', j) {
      if j > i { assert InnerNode(keccak, t, j); }
    }
    forall j: nat | |s| - 1 <= j < |t| ensures LeafNode(s, t', j) { assert LeafNode(s, t, j); }
  }

  method ProofAt(tree: array<Word>, start: nat) returns (proof: seq<Word>)
    requires start < tree.Length && tree.Length % 2 == 1
    ensures proof == ProofOf(tree[..], start)
  {
    proof := [];
    var i := start;
    while i > 0
      invariant 0 <= i < tree.Length
      invariant proof + ProofOf(tree[..], i) == ProofOf(tree[..], start)
    {
      proof := proof + [tree[if i % 2 == 1 then i + 1 else i - 1]];
      i := Parent(i);
    }
  }

  /** The proof of a node whose value is `leaf`. */
  ghost predicate IsProof(t: seq<Word>, leaf: Word, proof: seq<Word>) {
    |t| % 2 == 1 && exists i: nat {:trigger ProofOf(t, i)} :: i < |t| && t[i] == leaf && proof == ProofOf(t, i)
  }

  /** What a built tree is: the root of a heap over its sorted leaf hashes, and for every leaf its node's proof. */
  ghost predicate IsTree(keccak: Keccak, epoch: Word, t: Tree) {
    && |t.leaves| == |t.leafHashes| == |t.proofs| > 0
    && t.leafHashes == LeafHashes(keccak, epoch, t.leaves)
    && exists nodes :: HasNodes(keccak, t, nodes)
  }

  ghost predicate HasNodes(keccak: Keccak, t: Tree, nodes: seq<Word>) {
    && IsHeap(keccak, Sorted(t.leafHashes), nodes) && t.root == nodes[0] && |t.proofs| == |t.leafHashes|
    && forall k :: 0 <= k < |t.proofs| ==> IsProof(nodes, t.leafHashes[k], t.proofs[k])
  }

  method BuildTree(keccak: Keccak, epoch: Word, api: seq<ApiLeaf>) returns (r: Result<Tree>)
    ensures r.Ok? <==> api != [] && WeiLeaves(api).Ok?
    ensures r.Ok? ==> IsTree(keccak, epoch, r.value) && r.value.leaves == WeiLeaves(api).value
    ensures r.Ok? ==> r.value.root == RootOf(keccak, epoch, r.value.leaves)
  {
    if |api| == 0 { return Err; }
    var wei := WeiLeaves(api);
    if wei.Err? { return Err; }
    var leaves := wei.value;
    var hashes := LeafHashes(keccak, epoch, leaves);
    var order := SortIndices(hashes);
    var tree, treeIndexOf := PlaceLeaves(hashes, order);
    PlacedLeaves(keccak, hashes, order, tree[..], treeIndexOf[..], Sorted(hashes));
    forall k | 0 <= k < |hashes| ensures LeafAt(hashes, tree[..], treeIndexOf[k], k) {
      PlacedLeaf(hashes, order, tree[..], treeIndexOf[..], k);
    }
    HashInner(keccak, tree, Sorted(hashes));
    var proofs := AllProofs(hashes, tree, treeIndexOf);
    r := Ok(Tree(tree[0], leaves, hashes, proofs));
    assert HasNodes(keccak, r.value, tree[..]);
    RootIsRootOf(keccak, epoch, r.value);
  }

  /** A built tree has the root of its leaves. */
  lemma RootIsRootOf(keccak: Keccak, epoch: Word, t: Tree)
    requires IsTree(keccak, epoch, t)
    ensures t.root == RootOf(keccak, epoch, t.leaves)
  {
    var s := Sorted(t.leafHashes);
    var nodes :| HasNodes(keccak, t, nodes);
    NodesAreHeap(keccak, s);
    HeapUnique(keccak, s, nodes, NodesOf(keccak, s), 0);
  }

  method AllProofs(hashes: seq<Word>, tree: array<Word>, treeIndexOf: array<nat>) returns (proofs: seq<seq<Word>>)
    requires |hashes| > 0 && tree.Length == 2 * |hashes| - 1 && treeIndexOf.Length == |hashes|
    requires forall k :: 0 <= k < |hashes| ==> LeafAt(hashes, tree[..], treeIndexOf[k], k)
    ensures |proofs| == |hashes| && forall k :: 0 <= k < |hashes| ==> IsProof(tree[..], hashes[k], proofs[k])
  {
    proofs := [];
    for k := 0 to |hashes|
      invariant |proofs| == k
      invariant forall j :: 0 <= j < k ==> IsProof(tree[..], hashes[j], proofs[j])
    {
      assert LeafAt(hashes, tree[..], treeIndexOf[k], k);
      var proof := ProofAt(tree, treeIndexOf[k]);
      proofs := proofs + [proof];
    }
  }

  // ---- Proofs exist exactly for the leaves ----

  lemma PairCommutes(a: Word, b: Word)
    ensures PairInput(a, b) == PairInput(b, a)
  {
  }

  lemma ParentNode(keccak: Keccak, s: seq<Word>, t: seq<Word>, i: nat)
    requires IsHeap(keccak, s, t) && 0 < i < |t|
    ensures SiblingOf(i) < |t| && t[Parent(i)] == HashPair(keccak, t[i], t[SiblingOf(i)])
    ensures PairInput(t[i], t[SiblingOf(i)]) in TreeInputs(t)
  {
    var p := Parent(i);
    assert InnerNode(keccak, t, p);
    PairCommutes(t[2 * p + 1], t[2 * p + 2]);
    assert PairInput(t[2 * p + 1], t[2 * p + 2]) in TreeInputs(t);
  }

  /** Completeness: a node folds to the root with its own proof. */
  lemma {:induction false} OwnProofFolds(keccak: Keccak, s: seq<Word>, t: seq<Word>, i: nat)
    requires IsHeap(keccak, s, t) && i < |t|
    ensures Fold(keccak, t[i], ProofOf(t, i)) == t[0]
  {
    if i > 0 {
      ParentNode(keccak, s, t, i);
      OwnProofFolds(keccak, s, t, Parent(i));
      assert ProofOf(t, i)[1..] == ProofOf(t, Parent(i));
    }
  }

  /** Pairs hashed for the inner nodes. */
  ghost function TreeInputs(t: seq<Word>): set<seq<Word>> {
    set i: nat | 0 <= i < |t| && 2 * i + 2 < |t| :: PairInput(t[2 * i + 1], t[2 * i + 2])
  }

  /** Pairs hashed by a fold. */
  ghost function FoldInputs(keccak: Keccak, leaf: Word, proof: seq<Word>): set<seq<Word>>
    decreases |proof|
  {
    if proof == [] then {}
      else {PairInput(leaf, proof[0])} + FoldInputs(keccak, HashPair(keccak, leaf, proof[0]), proof[1..])
  }

  lemma {:induction false} FoldSnoc(keccak: Keccak, leaf: Word, proof: seq<Word>)
    requires proof != []
    ensures var m := |proof| - 1; var acc := Fold(keccak, leaf, proof[..m]);
      && Fold(keccak, leaf, proof) == HashPair(keccak, acc, proof[m])
      && FoldInputs(keccak, leaf, proof) == FoldInputs(keccak, leaf, proof[..m]) + {PairInput(acc, proof[m])}
    decreases |proof|
  {
    if |proof| > 1 {
      FoldSnoc(keccak, HashPair(keccak, leaf, proof[0]), proof[1..]);
      assert proof[1..][..|proof| - 2] == proof[..|proof| - 1][1..];
    }
  }

  /** `[w]` is one of the inputs and hashes to `v`. */
  ghost predicate HashesTo(keccak: Keccak, inputs: set<seq<Word>>, w: Word, v: Word) {
    [w] in inputs && keccak([w]) == v
  }

  ghost predicate HashesWord(keccak: Keccak, inputs: set<seq<Word>>, v: Word) {
    exists w: Word :: HashesTo(keccak, inputs, w, v)
  }

  /** Every leaf hash of the tree is the hash of one word. */
  ghost predicate Leafy(keccak: Keccak, s: seq<Word>, inputs: set<seq<Word>>) {
    forall v {:trigger HashesWord(keccak, inputs, v)} :: v in s ==> HashesWord(keccak, inputs, v)
  }

  /** One word and two words never hash alike. */
  lemma WordIsNotPair(keccak: Keccak, inputs: set<seq<Word>>, w: Word, a: Word, b: Word)
    requires CollisionFree(keccak, inputs) && [w] in inputs && PairInput(a, b) in inputs
    ensures keccak([w]) != HashPair(keccak, a, b)
  {
    assert |[w]| == 1 && |PairInput(a, b)| == 2;
  }

  lemma FoldIsNotWord(keccak: Keccak, inputs: set<seq<Word>>, leaf: Word, proof: seq<Word>, w: Word)
    requires CollisionFree(keccak, inputs) && [w] in inputs && FoldInputs(keccak, leaf, proof) <= inputs
    ensures proof != [] ==> Fold(keccak, leaf, proof) != keccak([w])
  {
    if proof != [] {
      FoldSnoc(keccak, leaf, proof);
      WordIsNotPair(keccak, inputs, w, Fold(keccak, leaf, proof[..|proof| - 1]), proof[|proof| - 1]);
    }
  }

  /** Soundness: a hash of one word that folds to some node of the tree is a leaf hash. */
  lemma {:induction false} FoldsOnlyFromLeaf(
      keccak: Keccak, s: seq<Word>, t: seq<Word>, inputs: set<seq<Word>>, w: Word, proof: seq<Word>, i: nat)
    requires IsHeap(keccak, s, t) && i < |t| && [w] in inputs && Leafy(keccak, s, inputs)
    requires TreeInputs(t) <= inputs && FoldInputs(keccak, keccak([w]), proof) <= inputs
      && CollisionFree(keccak, inputs)
    requires Fold(keccak, keccak([w]), proof) == t[i]
    ensures keccak([w]) in s
    decreases |proof|
  {
    if i >= |s| - 1 {
      assert LeafNode(s, t, i);
      assert HashesWord(keccak, inputs, t[i]);
      var v: Word :| HashesTo(keccak, inputs, v, t[i]);
      FoldIsNotWord(keccak, inputs, keccak([w]), proof, v);
    } else {
      assert InnerNode(keccak, t, i);
      var x, y, m := t[2 * i + 1], t[2 * i + 2], |proof| - 1;
      assert PairInput(x, y) in TreeInputs(t);
      WordIsNotPair(keccak, inputs, w, x, y);
      FoldSnoc(keccak, keccak([w]), proof);
      var acc := Fold(keccak, keccak([w]), proof[..m]);
      SamePair(keccak, inputs, acc, proof[m], x, y);
      FoldsOnlyFromLeaf(keccak, s, t, inputs, w, proof[..m], if acc == x then 2 * i + 1 else 2 * i + 2);
    }
  }

  lemma SamePair(keccak: Keccak, inputs: set<seq<Word>>, a: Word, b: Word, x: Word, y: Word)
    requires CollisionFree(keccak, inputs) && PairInput(a, b) in inputs && PairInput(x, y) in inputs
    requires HashPair(keccak, a, b) == HashPair(keccak, x, y)
    ensures a == x || a == y
  {
    var p, q := PairInput(a, b), PairInput(x, y);
    assert p[0] == q[0] && p[1] == q[1];
  }

  /** Everything hashed for a tree's leaves. */
  ghost function LeafInputs(keccak: Keccak, epoch: Word, leaves: seq<WeiLeaf>): set<seq<Word>> {
    (set k | 0 <= k < |leaves| :: LeafWords(epoch, leaves[k]))
      + (set k | 0 <= k < |leaves| :: [keccak(LeafWords(epoch, leaves[k]))])
  }

  lemma LeafInput(keccak: Keccak, epoch: Word, leaves: seq<WeiLeaf>, k: nat)
    requires k < |leaves|
    ensures LeafWords(epoch, leaves[k]) in LeafInputs(keccak, epoch, leaves)
    ensures HashesTo(keccak, LeafInputs(keccak, epoch, leaves), keccak(LeafWords(epoch, leaves[k])),
      LeafOf(keccak, epoch, leaves[k]))
  {
  }

  lemma SortedMember(s: seq<Word>, x: Word)
    ensures x in s <==> x in Sorted(s)
  {
    assert x in multiset(s) <==> x in multiset(Sorted(s));
  }

  lemma TreeIsLeafy(keccak: Keccak, epoch: Word, leaves: seq<WeiLeaf>)
    ensures Leafy(keccak, Sorted(LeafHashes(keccak, epoch, leaves)), LeafInputs(keccak, epoch, leaves))
  {
    var hs := LeafHashes(keccak, epoch, leaves);
    forall v | v in Sorted(hs) ensures HashesWord(keccak, LeafInputs(keccak, epoch, leaves), v) {
      SortedMember(hs, v);
      LeafHashed(keccak, epoch, leaves, hs, v);
    }
  }

  lemma LeafHashed(keccak: Keccak, epoch: Word, leaves: seq<WeiLeaf>, hs: seq<Word>, v: Word)
    requires hs == LeafHashes(keccak, epoch, leaves) && v in hs
    ensures HashesWord(keccak, LeafInputs(keccak, epoch, leaves), v)
  {
    var j :| 0 <= j < |hs| && hs[j] == v;
    LeafInput(keccak, epoch, leaves, j);
  }

  /** Everything hashed for a tree with these nodes. */
  ghost function AllTreeInputs(keccak: Keccak, epoch: Word, leaves: seq<WeiLeaf>, nodes: seq<Word>): set<seq<Word>> {
    LeafInputs(keccak, epoch, leaves) + TreeInputs(nodes)
  }

  /** A proof that folds the hash of the word `w` to the tree's root, with no collision among all that is hashed. */
  ghost predicate Proves(keccak: Keccak, epoch: Word, t: Tree, nodes: seq<Word>, w: Word, proof: seq<Word>) {
    && CollisionFree(keccak,
      AllTreeInputs(keccak, epoch, t.leaves, nodes) + {[w]} + FoldInputs(keccak, keccak([w]), proof))
    && Fold(keccak, keccak([w]), proof) == t.root
  }

  lemma {:induction false} OwnFoldInputs(keccak: Keccak, s: seq<Word>, t: seq<Word>, i: nat)
    requires IsHeap(keccak, s, t) && i < |t|
    ensures FoldInputs(keccak, t[i], ProofOf(t, i)) <= TreeInputs(t)
  {
    if i > 0 {
      var p, sib := Parent(i), SiblingOf(i);
      ParentNode(keccak, s, t, i);
      OwnFoldInputs(keccak, s, t, p);
      OwnFoldStep(keccak, t, i, p, sib);
    }
  }

  lemma OwnFoldStep(keccak: Keccak, t: seq<Word>, i: nat, p: nat, sib: nat)
    requires 0 < i < |t| && |t| % 2 == 1 && p == Parent(i) && sib == SiblingOf(i) && sib < |t|
    requires t[p] == HashPair(keccak, t[i], t[sib]) && PairInput(t[i], t[sib]) in TreeInputs(t)
      && FoldInputs(keccak, t[p], ProofOf(t, p)) <= TreeInputs(t)
    ensures FoldInputs(keccak, t[i], ProofOf(t, i)) <= TreeInputs(t)
  {
    ProofStep(t, i, p, sib);
    FoldInputsCons(keccak, t[i], t[sib], ProofOf(t, p), t[p], TreeInputs(t));
  }

  lemma ProofStep(t: seq<Word>, i: nat, p: nat, sib: nat)
    requires 0 < i < |t| && |t| % 2 == 1 && p == Parent(i) && sib == SiblingOf(i)
    ensures sib < |t| && ProofOf(t, i) == [t[sib]] + ProofOf(t, p)
  {
  }

  lemma FoldInputsCons(keccak: Keccak, leaf: Word, x: Word, rest: seq<Word>, up: Word, inputs: set<seq<Word>>)
    requires up == HashPair(keccak, leaf, x) && PairInput(leaf, x) in inputs && FoldInputs(keccak, up, rest) <= inputs
    ensures FoldInputs(keccak, leaf, [x] + rest) <= inputs
  {
    assert ([x] + rest)[1..] == rest;
  }

  /** A built tree's own proofs prove its leaves; that they fold to the root needs nothing of the hash. */
  lemma OwnProofProves(keccak: Keccak, epoch: Word, t: Tree, nodes: seq<Word>, k: nat, w: Word)
    requires HasNodes(keccak, t, nodes) && k < |t.leafHashes|
    ensures Fold(keccak, t.leafHashes[k], t.proofs[k]) == t.root
    ensures
      t.leafHashes[k] == keccak([w]) && CollisionFree(keccak, AllTreeInputs(keccak, epoch, t.leaves, nodes) + {[w]}) ==>
      Proves(keccak, epoch, t, nodes, w, t.proofs[k])
  {
    assert IsProof(nodes, t.leafHashes[k], t.proofs[k]);
    var i: nat :| i < |nodes| && nodes[i] == t.leafHashes[k] && t.proofs[k] == ProofOf(nodes, i);
    OwnProofFolds(keccak, Sorted(t.leafHashes), nodes, i);
    OwnFoldInputs(keccak, Sorted(t.leafHashes), nodes, i);
    var a := AllTreeInputs(keccak, epoch, t.leaves, nodes) + {[w]};
    assert a + FoldInputs(keccak, t.leafHashes[k], t.proofs[k]) == a;
  }

  lemma ProvesOnlyLeaf(keccak: Keccak, epoch: Word, t: Tree, nodes: seq<Word>, w: Word, proof: seq<Word>)
    requires IsTree(keccak, epoch, t) && HasNodes(keccak, t, nodes) && Proves(keccak, epoch, t, nodes, w, proof)
    ensures keccak([w]) in t.leafHashes
  {
    var s := Sorted(t.leafHashes);
    var inputs := AllTreeInputs(keccak, epoch, t.leaves, nodes) + {[w]} + FoldInputs(keccak, keccak([w]), proof);
    TreeIsLeafy(keccak, epoch, t.leaves);
    LeafyMore(keccak, s, LeafInputs(keccak, epoch, t.leaves), inputs);
    FoldsOnlyFromLeaf(keccak, s, nodes, inputs, w, proof, 0);
    SortedMember(t.leafHashes, keccak([w]));
  }

  lemma LeafyMore(keccak: Keccak, s: seq<Word>, inputs: set<seq<Word>>, more: set<seq<Word>>)
    requires Leafy(keccak, s, inputs) && inputs <= more
    ensures Leafy(keccak, s, more)
  {
    forall v | v in s ensures HashesWord(keccak, more, v) {
      assert HashesWord(keccak, inputs, v);
      var w: Word :| HashesTo(keccak, inputs, w, v);
      assert HashesTo(keccak, more, w, v);
    }
  }

  /** The hash of a word has some proof exactly when it is one of the built tree's leaf hashes. */
  lemma ProvableIffLeaf(keccak: Keccak, epoch: Word, t: Tree, nodes: seq<Word>, w: Word)
    requires IsTree(keccak, epoch, t) && HasNodes(keccak, t, nodes)
    requires CollisionFree(keccak, AllTreeInputs(keccak, epoch, t.leaves, nodes) + {[w]})
    ensures (exists proof :: Proves(keccak, epoch, t, nodes, w, proof)) <==> keccak([w]) in t.leafHashes
  {
    if keccak([w]) in t.leafHashes {
      var k :| 0 <= k < |t.leafHashes| && t.leafHashes[k] == keccak([w]);
      OwnProofProves(keccak, epoch, t, nodes, k, w);
    }
    if proof :| Proves(keccak, epoch, t, nodes, w, proof) { ProvesOnlyLeaf(keccak, epoch, t, nodes, w, proof); }
  }

  /** An account can prove exactly the amounts the tree lists for it. */
  lemma ProvableIffListed(keccak: Keccak, epoch: Word, t: Tree, nodes: seq<Word>, l: WeiLeaf, w: Word)
    requires IsTree(keccak, epoch, t) && HasNodes(keccak, t, nodes) && w == keccak(LeafWords(epoch, l))
    requires CollisionFree(keccak, AllTreeInputs(keccak, epoch, t.leaves, nodes) + {[w]} + {LeafWords(epoch, l)})
    ensures (exists proof :: Proves(keccak, epoch, t, nodes, w, proof)) <==> l in t.leaves
  {
    ProvableIffLeaf(keccak, epoch, t, nodes, w);
    if keccak([w]) in t.leafHashes {
      ListedBehind(keccak, epoch, t, l, AllTreeInputs(keccak, epoch, t.leaves, nodes) + {[w]} + {LeafWords(epoch, l)});
    }
    if l in t.leaves {
      var k :| 0 <= k < |t.leaves| && t.leaves[k] == l;
      assert t.leafHashes[k] == keccak([w]);
    }
  }

  lemma SameLeaf(keccak: Keccak, inputs: set<seq<Word>>, epoch: Word, l: WeiLeaf, m: WeiLeaf)
    requires CollisionFree(keccak, inputs) && LeafOf(keccak, epoch, l) == LeafOf(keccak, epoch, m)
    requires LeafWords(epoch, l) in inputs && LeafWords(epoch, m) in inputs && [keccak(LeafWords(epoch, l))] in inputs
      && [keccak(LeafWords(epoch, m))] in inputs
    ensures l == m
  {
    var x, y := LeafWords(epoch, l), LeafWords(epoch, m);
    assert [keccak(x)][0] == [keccak(y)][0];
    assert x[1] == y[1] && x[2] == y[2] && x[3] == y[3];
  }

  /** A leaf whose hash is a tree's leaf hash is one of the tree's leaves. */
  lemma ListedBehind(keccak: Keccak, epoch: Word, u: Tree, l: WeiLeaf, inputs: set<seq<Word>>)
    requires IsTree(keccak, epoch, u) && LeafOf(keccak, epoch, l) in u.leafHashes
    requires CollisionFree(keccak, inputs) && LeafInputs(keccak, epoch, u.leaves) <= inputs
      && LeafWords(epoch, l) in inputs && [keccak(LeafWords(epoch, l))] in inputs
    ensures l in u.leaves
  {
    var j :| 0 <= j < |u.leafHashes| && u.leafHashes[j] == LeafOf(keccak, epoch, l);
    LeafInput(keccak, epoch, u.leaves, j);
    SameLeaf(keccak, inputs, epoch, u.leaves[j], l);
  }

  // ---- The root binds the leaves ----

  /** How many leaves below node `i` have the hash `w`. */
  ghost function Under(t: seq<Word>, i: nat, w: Word): nat
    requires i < |t|
    decreases |t| - i
  {
    if 2 * i + 2 < |t| then Under(t, 2 * i + 1, w) + Under(t, 2 * i + 2, w) else if t[i] == w then 1 else 0
  }

  /** The same below the nodes from `i` up to `j`. */
  ghost function Cut(t: seq<Word>, i: nat, j: nat, w: Word): nat
    requires i <= j <= |t|
    decreases j
  {
    if i == j then 0 else Cut(t, i, j - 1, w) + Under(t, j - 1, w)
  }

  lemma {:induction false} CutHead(t: seq<Word>, i: nat, j: nat, w: Word)
    requires i < j <= |t|
    ensures Cut(t, i, j, w) == Under(t, i, w) + Cut(t, i + 1, j, w)
    decreases j
  {
    if i + 1 < j { CutHead(t, i, j - 1, w); }
  }

  /** Nodes `i` to `2i` cut the whole tree below its root. */
  lemma {:induction false} CutIsWhole(t: seq<Word>, i: nat, w: Word)
    requires 2 * i < |t|
    ensures Cut(t, i, 2 * i + 1, w) == Under(t, 0, w)
  {
    if i == 0 {
      assert Cut(t, 0, 0, w) == 0;
    } else {
      CutIsWhole(t, i - 1, w);
      CutHead(t, i - 1, 2 * i - 1, w);
      CutMoves(t, i, w);
    }
  }

  lemma CutMoves(t: seq<Word>, i: nat, w: Word)
    requires 0 < i && 2 * i < |t|
    ensures Cut(t, i, 2 * i + 1, w) == Under(t, i - 1, w) + Cut(t, i, 2 * i - 1, w)
  {
    assert Cut(t, i, 2 * i + 1, w) == Cut(t, i, 2 * i, w) + Under(t, 2 * i, w);
    assert Cut(t, i, 2 * i, w) == Cut(t, i, 2 * i - 1, w) + Under(t, 2 * i - 1, w);
  }

  /** A run of leaf nodes is cut into themselves. */
  lemma {:induction false} CutOfLeaves(s: seq<Word>, t: seq<Word>, j: nat, w: Word)
    requires |s| > 0 && |t| == 2 * |s| - 1 && |s| - 1 <= j <= |t|
    requires forall i: nat {:trigger LeafNode(s, t, i)} :: |s| - 1 <= i < |t| ==> LeafNode(s, t, i)
    ensures Cut(t, |s| - 1, j, w) == multiset(s[|t| - j..])[w]
    decreases j
  {
    var rest := s[|t| - j..];
    if j > |s| - 1 {
      CutOfLeaves(s, t, j - 1, w);
      assert LeafNode(s, t, j - 1);
      assert rest == [s[|t| - j]] + s[|t| - (j - 1)..];
    }
  }

  /** Below the root are all the leaf hashes. */
  lemma RootCoversLeaves(keccak: Keccak, s: seq<Word>, t: seq<Word>, w: Word)
    requires IsHeap(keccak, s, t)
    ensures Under(t, 0, w) == multiset(s)[w]
  {
    CutIsWhole(t, |s| - 1, w);
    CutOfLeaves(s, t, |t|, w);
    assert s[0..] == s;
  }

  lemma SamePairs(keccak: Keccak, inputs: set<seq<Word>>, a: Word, b: Word, x: Word, y: Word)
    requires CollisionFree(keccak, inputs) && PairInput(a, b) in inputs && PairInput(x, y) in inputs
    requires HashPair(keccak, a, b) == HashPair(keccak, x, y)
    ensures (a == x && b == y) || (a == y && b == x)
  {
    var p, q := PairInput(a, b), PairInput(x, y);
    assert p[0] == q[0] && p[1] == q[1];
  }

  /** Equal nodes of two trees have the same leaf hashes below them. */
  lemma {:induction false} SameUnder(
    keccak: Keccak, s: seq<Word>, t: seq<Word>, s': seq<Word>, u: seq<Word>, inputs: set<seq<Word>>, i: nat, j: nat,
      w: Word)
    requires IsHeap(keccak, s, t) && IsHeap(keccak, s', u) && Leafy(keccak, s, inputs) && Leafy(keccak, s', inputs)
    requires CollisionFree(keccak, inputs) && TreeInputs(t) <= inputs && TreeInputs(u) <= inputs
    requires i < |t| && j < |u| && t[i] == u[j]
    ensures Under(t, i, w) == Under(u, j, w)
    decreases |t| - i
  {
    SameKind(keccak, s, t, s', u, inputs, i, j);
    if 2 * i + 2 < |t| {
      var k := SameChildren(keccak, s, t, s', u, inputs, i, j);
      SameUnder(keccak, s, t, s', u, inputs, 2 * i + 1, 2 * j + k, w);
      SameUnder(keccak, s, t, s', u, inputs, 2 * i + 2, 2 * j + 3 - k, w);
    }
  }

  /** Equal nodes are both leaves or both inner nodes. */
  lemma SameKind(
      keccak: Keccak, s: seq<Word>, t: seq<Word>, s': seq<Word>, u: seq<Word>, inputs: set<seq<Word>>, i: nat, j: nat)
    requires IsHeap(keccak, s, t) && IsHeap(keccak, s', u) && Leafy(keccak, s, inputs) && Leafy(keccak, s', inputs)
    requires CollisionFree(keccak, inputs) && TreeInputs(t) <= inputs && TreeInputs(u) <= inputs
    requires i < |t| && j < |u| && t[i] == u[j]
    ensures 2 * i + 2 < |t| <==> 2 * j + 2 < |u|
  {
    NodeKind(keccak, s, t, inputs, i);
    NodeKind(keccak, s', u, inputs, j);
    if 2 * i + 2 < |t| && 2 * j + 2 >= |u| {
      LeafIsNotInner(keccak, inputs, u[j], t[2 * i + 1], t[2 * i + 2]);
    } else if 2 * i + 2 >= |t| && 2 * j + 2 < |u| {
      LeafIsNotInner(keccak, inputs, t[i], u[2 * j + 1], u[2 * j + 2]);
    }
  }

  /** Equal inner nodes have equal children, straight or crossed. */
  lemma SameChildren(
      keccak: Keccak, s: seq<Word>, t: seq<Word>, s': seq<Word>, u: seq<Word>, inputs: set<seq<Word>>, i: nat, j: nat)
    returns (k: nat)
    requires IsHeap(keccak, s, t) && IsHeap(keccak, s', u) && Leafy(keccak, s, inputs) && Leafy(keccak, s', inputs)
    requires CollisionFree(keccak, inputs) && TreeInputs(t) <= inputs && TreeInputs(u) <= inputs
    requires 2 * i + 2 < |t| && 2 * j + 2 < |u| && t[i] == u[j]
    ensures 1 <= k <= 2 && t[2 * i + 1] == u[2 * j + k] && t[2 * i + 2] == u[2 * j + 3 - k]
  {
    NodeKind(keccak, s, t, inputs, i);
    NodeKind(keccak, s', u, inputs, j);
    SamePairs(keccak, inputs, t[2 * i + 1], t[2 * i + 2], u[2 * j + 1], u[2 * j + 2]);
    k := if t[2 * i + 1] == u[2 * j + 1] && t[2 * i + 2] == u[2 * j + 2] then 1 else 2;
  }

  /** An inner node hashes a pair among the inputs; a leaf node hashes one word. */
  lemma NodeKind(keccak: Keccak, s: seq<Word>, t: seq<Word>, inputs: set<seq<Word>>, i: nat)
    requires IsHeap(keccak, s, t) && Leafy(keccak, s, inputs) && TreeInputs(t) <= inputs && i < |t|
    ensures 2 * i + 2 < |t| ==>
      t[i] == HashPair(keccak, t[2 * i + 1], t[2 * i + 2]) && PairInput(t[2 * i + 1], t[2 * i + 2]) in inputs
    ensures 2 * i + 2 >= |t| ==> HashesWord(keccak, inputs, t[i])
  {
    if 2 * i + 2 < |t| {
      assert InnerNode(keccak, t, i);
      assert PairInput(t[2 * i + 1], t[2 * i + 2]) in TreeInputs(t);
    } else {
      assert LeafNode(s, t, i);
    }
  }

  lemma LeafIsNotInner(keccak: Keccak, inputs: set<seq<Word>>, v: Word, a: Word, b: Word)
    requires CollisionFree(keccak, inputs) && HashesWord(keccak, inputs, v) && PairInput(a, b) in inputs
    ensures v != HashPair(keccak, a, b)
  {
    var w: Word :| HashesTo(keccak, inputs, w, v);
    WordIsNotPair(keccak, inputs, w, a, b);
  }

  /** Lists of leaves with the same hashes are the same up to order. */
  lemma {:induction false} SameHashesSameLeaves(
      keccak: Keccak, epoch: Word, xs: seq<WeiLeaf>, ys: seq<WeiLeaf>, inputs: set<seq<Word>>)
    requires multiset(LeafHashes(keccak, epoch, xs)) == multiset(LeafHashes(keccak, epoch, ys))
    requires CollisionFree(keccak, inputs) && LeafInputs(keccak, epoch, xs) <= inputs
      && LeafInputs(keccak, epoch, ys) <= inputs
    ensures multiset(xs) == multiset(ys)
    decreases |xs|
  {
    SameLength(LeafHashes(keccak, epoch, xs), LeafHashes(keccak, epoch, ys));
    if xs != [] {
      var p := FirstElsewhere(LeafHashes(keccak, epoch, xs), LeafHashes(keccak, epoch, ys));
      SameFirst(keccak, epoch, xs, ys, inputs, p);
      var x, y := xs[..0] + xs[1..], ys[..p] + ys[p + 1..];
      WithoutFirst(keccak, epoch, xs, ys, p, x, y);
      FewerLeafInputs(keccak, epoch, xs, 0);
      FewerLeafInputs(keccak, epoch, ys, p);
      SameHashesSameLeaves(keccak, epoch, x, y, inputs);
      TakeOut(xs, 0);
      TakeOut(ys, p);
    }
  }

  lemma SameLength<T>(xs: seq<T>, ys: seq<T>)
    requires multiset(xs) == multiset(ys)
    ensures |xs| == |ys|
  {
    assert |xs| == |multiset(xs)| == |multiset(ys)| == |ys|;
  }

  lemma SameFirst(keccak: Keccak, epoch: Word, xs: seq<WeiLeaf>, ys: seq<WeiLeaf>, inputs: set<seq<Word>>, p: nat)
    requires xs != [] && p < |ys| && LeafOf(keccak, epoch, ys[p]) == LeafOf(keccak, epoch, xs[0])
    requires CollisionFree(keccak, inputs) && LeafInputs(keccak, epoch, xs) <= inputs
      && LeafInputs(keccak, epoch, ys) <= inputs
    ensures ys[p] == xs[0]
  {
    LeafInput(keccak, epoch, xs, 0);
    LeafInput(keccak, epoch, ys, p);
    SameLeaf(keccak, inputs, epoch, ys[p], xs[0]);
  }

  lemma WithoutFirst(
    keccak: Keccak, epoch: Word, xs: seq<WeiLeaf>, ys: seq<WeiLeaf>, p: nat, x: seq<WeiLeaf>, y: seq<WeiLeaf>)
    requires xs != [] && p < |ys| && ys[p] == xs[0] && x == xs[..0] + xs[1..] && y == ys[..p] + ys[p + 1..]
    requires multiset(LeafHashes(keccak, epoch, xs)) == multiset(LeafHashes(keccak, epoch, ys))
    ensures multiset(LeafHashes(keccak, epoch, x)) == multiset(LeafHashes(keccak, epoch, y))
  {
    HashesTakeOut(keccak, epoch, xs, 0, x);
    HashesTakeOut(keccak, epoch, ys, p, y);
    Cancel(multiset(LeafHashes(keccak, epoch, x)), multiset(LeafHashes(keccak, epoch, y)),
      LeafOf(keccak, epoch, xs[0]));
  }

  lemma FewerLeafInputs(keccak: Keccak, epoch: Word, xs: seq<WeiLeaf>, p: nat)
    requires p < |xs|
    ensures LeafInputs(keccak, epoch, xs[..p] + xs[p + 1..]) <= LeafInputs(keccak, epoch, xs)
  {
    var rest := xs[..p] + xs[p + 1..];
    forall k: nat | k < |rest|
      ensures LeafWords(epoch, rest[k]) in LeafInputs(keccak, epoch, xs)
        && [keccak(LeafWords(epoch, rest[k]))] in LeafInputs(keccak, epoch, xs)
    {
      LeafInput(keccak, epoch, xs, if k < p then k else k + 1);
    }
  }

  /** Everything hashed for the tree over `leaves`. */
  ghost function RootInputs(keccak: Keccak, epoch: Word, leaves: seq<WeiLeaf>): set<seq<Word>>
    requires leaves != []
  {
    LeafInputs(keccak, epoch, leaves) + TreeInputs(NodesOf(keccak, Sorted(LeafHashes(keccak, epoch, leaves))))
  }

  /** Equal roots mean the same leaves up to order, if nothing hashed for the two trees collides. */
  lemma RootBindsLeaves(keccak: Keccak, epoch: Word, xs: seq<WeiLeaf>, ys: seq<WeiLeaf>, inputs: set<seq<Word>>)
    requires xs != [] && ys != [] && RootOf(keccak, epoch, xs) == RootOf(keccak, epoch, ys)
    requires CollisionFree(keccak, inputs) && RootInputs(keccak, epoch, xs) <= inputs
      && RootInputs(keccak, epoch, ys) <= inputs
    ensures multiset(xs) == multiset(ys)
  {
    var s, s' := Sorted(LeafHashes(keccak, epoch, xs)), Sorted(LeafHashes(keccak, epoch, ys));
    NodesAreHeap(keccak, s);
    NodesAreHeap(keccak, s');
    TreeIsLeafy(keccak, epoch, xs);
    TreeIsLeafy(keccak, epoch, ys);
    LeafyMore(keccak, s, LeafInputs(keccak, epoch, xs), inputs);
    LeafyMore(keccak, s', LeafInputs(keccak, epoch, ys), inputs);
    SameRootSameHashes(keccak, s, NodesOf(keccak, s), s', NodesOf(keccak, s'), inputs);
    SameHashesSameLeaves(keccak, epoch, xs, ys, inputs);
  }

  lemma SameRootSameHashes(
      keccak: Keccak, s: seq<Word>, t: seq<Word>, s': seq<Word>, u: seq<Word>, inputs: set<seq<Word>>)
    requires IsHeap(keccak, s, t) && IsHeap(keccak, s', u) && Leafy(keccak, s, inputs) && Leafy(keccak, s', inputs)
    requires CollisionFree(keccak, inputs) && TreeInputs(t) <= inputs && TreeInputs(u) <= inputs && t[0] == u[0]
    ensures multiset(s) == multiset(s')
  {
    forall w: Word ensures multiset(s)[w] == multiset(s')[w] {
      SameUnder(keccak, s, t, s', u, inputs, 0, 0, w);
      RootCoversLeaves(keccak, s, t, w);
      RootCoversLeaves(keccak, s', u, w);
    }
  }

  // ---- The root does not depend on the order of the leaves ----

  lemma PermutedTail<T>(xs: seq<T>, ys: seq<T>, p: nat)
    requires multiset(xs) == multiset(ys) && xs != [] && p < |ys| && ys[p] == xs[0]
    ensures multiset(xs[1..]) == multiset(ys[..p] + ys[p + 1..])
  {
    TakeOut(xs, 0);
    TakeOut(ys, p);
    assert xs[..0] + xs[1..] == xs[1..];
    Cancel(multiset(xs[1..]), multiset(ys[..p] + ys[p + 1..]), xs[0]);
  }

  lemma FirstElsewhere<T>(xs: seq<T>, ys: seq<T>) returns (p: nat)
    requires multiset(xs) == multiset(ys) && xs != []
    ensures p < |ys| && ys[p] == xs[0]
  {
    assert xs[0] in multiset(ys);
    p :| 0 <= p < |ys| && ys[p] == xs[0];
  }

  lemma {:induction false} HashesOfPermuted(keccak: Keccak, epoch: Word, xs: seq<WeiLeaf>, ys: seq<WeiLeaf>)
    requires multiset(xs) == multiset(ys)
    ensures multiset(LeafHashes(keccak, epoch, xs)) == multiset(LeafHashes(keccak, epoch, ys))
  {
    if xs == [] {
      assert |ys| == |multiset(ys)| == 0;
    } else {
      var p := FirstElsewhere(xs, ys);
      PermutedTail(xs, ys, p);
      var x, y := xs[1..], ys[..p] + ys[p + 1..];
      HashesOfPermuted(keccak, epoch, x, y);
      assert xs[..0] + xs[1..] == x;
      HashesTakeOut(keccak, epoch, xs, 0, x);
      HashesTakeOut(keccak, epoch, ys, p, y);
    }
  }

  lemma HashesTakeOut(keccak: Keccak, epoch: Word, xs: seq<WeiLeaf>, p: nat, rest: seq<WeiLeaf>)
    requires p < |xs| && rest == xs[..p] + xs[p + 1..]
    ensures multiset(LeafHashes(keccak, epoch, xs))
         == multiset(LeafHashes(keccak, epoch, rest)) + multiset{LeafOf(keccak, epoch, xs[p])}
  {
    var hs := LeafHashes(keccak, epoch, xs);
    assert LeafHashes(keccak, epoch, rest) == hs[..p] + hs[p + 1..];
    assert hs == hs[..p] + [hs[p]] + hs[p + 1..];
  }

  /** Two trees over the same leaves in any order have the same root. */
  lemma RootIgnoresOrder(keccak: Keccak, epoch: Word, t: Tree, u: Tree)
    requires IsTree(keccak, epoch, t) && IsTree(keccak, epoch, u) && multiset(t.leaves) == multiset(u.leaves)
    ensures t.root == u.root
  {
    HashesOfPermuted(keccak, epoch, t.leaves, u.leaves);
    AscendingUnique(Sorted(t.leafHashes), Sorted(u.leafHashes));
    var s := Sorted(t.leafHashes);
    var nodes :| HasNodes(keccak, t, nodes);
    var nodes' :| HasNodes(keccak, u, nodes');
    HeapUnique(keccak, s, nodes, nodes', 0);
  }

  // ---- Totals ----

  function SumLanes(leaves: seq<WeiLeaf>): (nat, nat) {
    if leaves == [] then (0, 0) else
    var rest := SumLanes(leaves[..|leaves| - 1]);
    (rest.0 + leaves[|leaves| - 1].laneA, rest.1 + leaves[|leaves| - 1].laneB)
  }

  /** The API's amounts summed. */
  function UcldSums(api: seq<ApiLeaf>): (int, int) {
    if api == [] then (0, 0) else
    var rest := UcldSums(api[..|api| - 1]);
    (rest.0 + api[|api| - 1].laneAUcld, rest.1 + api[|api| - 1].laneBUcld)
  }

  /** The lane sums in wei are the API's sums, scaled. */
  lemma {:induction false} SumsScale(api: seq<ApiLeaf>)
    requires WeiLeaves(api).Ok?
    ensures SumLanes(WeiLeaves(api).value) == (UcldSums(api).0 * UCLD_TO_WEI, UcldSums(api).1 * UCLD_TO_WEI)
  {
    if api != [] {
      var n := |api| - 1;
      SumsScale(api[..n]);
      assert WeiLeaves(api).value[..n] == WeiLeaves(api[..n]).value;
    }
  }

  /** The keeper's totals agree with the leaves in wei exactly when the API's totals are the sums of its leaves. */
  lemma TotalsAgreeIff(api: seq<ApiLeaf>, totalA: int, totalB: int)
    requires WeiLeaves(api).Ok?
    ensures ToWei(totalA).Ok? && ToWei(totalB).Ok?
      && SumLanes(WeiLeaves(api).value) == (ToWei(totalA).value, ToWei(totalB).value)
      <==> (totalA, totalB) == UcldSums(api)
  {
    SumsScale(api);
    SumsNonNegative(api);
    ScaledEqual(UcldSums(api).0, totalA);
    ScaledEqual(UcldSums(api).1, totalB);
  }

  lemma ScaledEqual(sum: int, total: int)
    requires sum >= 0
    ensures ToWei(total).Ok? && sum * UCLD_TO_WEI == ToWei(total).value <==> sum == total
  {
  }

  lemma {:induction false} SumsNonNegative(api: seq<ApiLeaf>)
    requires WeiLeaves(api).Ok?
    ensures UcldSums(api).0 >= 0 && UcldSums(api).1 >= 0
  {
    if api != [] {
      SumsNonNegative(api[..|api| - 1]);
      assert ToLeaf(api[|api| - 1]).Ok?;
    }
  }

  // ---- The tree written out ----

  /** Epoch, account, lane A and lane B, hashed twice. */
  function HashedLeaf(keccak: Keccak, epoch: Word, l: WeiLeaf): Word {
    keccak([keccak([epoch, l.account, l.laneA, l.laneB])])
  }

  function HashedLeaves(keccak: Keccak, epoch: Word, leaves: seq<WeiLeaf>): seq<Word> {
    seq(|leaves|, k requires 0 <= k < |leaves| => HashedLeaf(keccak, epoch, leaves[k]))
  }

  /**
   Node `i` over the ascending hashes `s`: the leaves fill the end backwards, and a node hashes the lesser child first.
   */
  function NodeAt(keccak: Keccak, s: seq<Word>, i: nat): Word
    requires i + 1 < 2 * |s|
    decreases 2 * |s| - i
  {
    if i + 1 >= |s| then s[2 * |s| - 2 - i] else
    var a, b := NodeAt(keccak, s, 2 * i + 1), NodeAt(keccak, s, 2 * i + 2);
    if a <= b then keccak([a, b]) else keccak([b, a])
  }

  lemma {:induction false} NodesWrittenOut(keccak: Keccak, s: seq<Word>, t: seq<Word>, i: nat)
    requires IsHeap(keccak, s, t) && i < |t|
    ensures t[i] == NodeAt(keccak, s, i)
    decreases |t| - i
  {
    if i + 1 >= |s| {
      assert LeafNode(s, t, i);
    } else {
      assert InnerNode(keccak, t, i);
      NodesWrittenOut(keccak, s, t, 2 * i + 1);
      NodesWrittenOut(keccak, s, t, 2 * i + 2);
    }
  }

  /** The root of the tree over `leaves` is the first node written out over their hashes in ascending order. */
  lemma RootWrittenOut(keccak: Keccak, epoch: Word, leaves: seq<WeiLeaf>, s: seq<Word>)
    requires leaves != [] && Ascending(s) && multiset(s) == multiset(HashedLeaves(keccak, epoch, leaves))
    ensures |s| == |leaves| && RootOf(keccak, epoch, leaves) == NodeAt(keccak, s, 0)
  {
    var hs := LeafHashes(keccak, epoch, leaves);
    assert hs == HashedLeaves(keccak, epoch, leaves);
    SameLength(s, hs);
    AscendingUnique(Sorted(hs), s);
    NodesAreHeap(keccak, Sorted(hs));
    NodesWrittenOut(keccak, s, NodesOf(keccak, Sorted(hs)), 0);
  }
}
