/** The chain root that binds a commitment (shared/verification.ts), as text fields and hashes. */
module Chain {
  import opened Text
  import opened Wrappers
  import opened Tensors
  import opened Int8Work

  function KindText(k: Kind): string {
    match k case GemmKind => "gemm" case Elementwise => "elementwise" case Opaque => "opaque"
  }

  function OpBaseText(b: OpBase): string {
    match b case Xw1 => "xw1" case Rq1Lut => "rq1_lut" case Aw2 => "aw2" case Rq2Res => "rq2_res"
  }

  function OpText(op: Op): string {
    match op.block case None => OpBaseText(op.base) case Some(l) => OpBaseText(op.base) + ['@'] + Decimal(l)
  }

  function NameBaseText(b: NameBase): string {
    match b
    case NX => "X" case NW1 => "W1" case Nb1 => "b1" case NW2 => "W2" case Nb2 => "b2" case Nq => "q" case Nlut => "lut"
  }

  function NameText(n: Name): string {
    match n.block case None => NameBaseText(n.base) case Some(l) => NameBaseText(n.base) + ['_'] + Decimal(l)
  }

  function RefText(r: Ref): string {
    match r case In(name) => "in" + [':'] + NameText(name) case Seg(j) => "seg" + [':'] + Decimal(j)
  }

  function RefTexts(rs: seq<Ref>): seq<string> { seq(|rs|, k requires 0 <= k < |rs| => RefText(rs[k])) }

  function InputsText(rs: seq<Ref>): string { Join(RefTexts(rs), ',') }

  /** First link: `cldc1|sigma|inHash`. */
  function FirstText(sigma: string, inHash: string): string { "cldc1" + ['|'] + (sigma + ['|'] + inHash) }

  /** Next link: `previous|idx|kind|op|inputs|outHash`. */
  function LinkText(prev: string, s: Spec, outHash: string): string {
    prev + ['|'] + (Decimal(s.idx) + ['|']
      + (KindText(s.kind) + ['|'] + (OpText(s.op) + ['|'] + (InputsText(s.inputs) + ['|'] + outHash))))
  }

  /** What is hashed last: the first link, or the link of the last segment. */
  function LastText(hash: Hash, sigma: string, inHash: string, plan: seq<Spec>, outHashes: seq<string>): string
    requires |plan| == |outHashes|
    decreases |plan|, 0
  {
    if plan == [] then FirstText(sigma, inHash)
    else
      var n := |plan| - 1;
      LinkText(Root(hash, sigma, inHash, plan[..n], outHashes[..n]), plan[n], outHashes[n])
  }

  /** The fold over the plan. */
  function Root(hash: Hash, sigma: string, inHash: string, plan: seq<Spec>, outHashes: seq<string>): string
    requires |plan| == |outHashes|
    decreases |plan|, 1
  {
    hash(LastText(hash, sigma, inHash, plan, outHashes))
  }

  /** Everything hashed on the way to the root. */
  ghost function Queries(
      hash: Hash, sigma: string, inHash: string, plan: seq<Spec>, outHashes: seq<string>): set<string>
    requires |plan| == |outHashes|
  {
    {LastText(hash, sigma, inHash, plan, outHashes)}
    + if plan == [] then {} else Queries(hash, sigma, inHash, plan[..|plan| - 1], outHashes[..|plan| - 1])
  }

  /** The loop of `chainRoot`. */
  method ChainRoot(
      hash: Hash, sigma: string, inHash: string, plan: seq<Spec>, outHashes: seq<string>) returns (l: string)
    requires |plan| == |outHashes|
    ensures l == Root(hash, sigma, inHash, plan, outHashes)
  {
    l := hash(FirstText(sigma, inHash));
    for i := 0 to |plan|
      invariant l == Root(hash, sigma, inHash, plan[..i], outHashes[..i])
    {
      assert plan[..i + 1][..i] == plan[..i] && outHashes[..i + 1][..i] == outHashes[..i];
      l := hash(LinkText(l, plan[i], outHashes[i]));
    }
    assert plan[..|plan|] == plan && outHashes[..|plan|] == outHashes;
  }

  // ---- The texts can be read back ----

  lemma KindTextInjective(k: Kind, k': Kind)
    ensures Free(KindText(k), '|')
    ensures KindText(k) == KindText(k') ==> k == k'
  {
    assert |KindText(GemmKind)| == 4 && |KindText(Elementwise)| == 11 && |KindText(Opaque)| == 6;
  }

  lemma OpBaseTextInjective(b: OpBase, b': OpBase)
    ensures Free(OpBaseText(b), '|') && Free(OpBaseText(b), '@')
    ensures OpBaseText(b) == OpBaseText(b') ==> b == b'
  {
    assert OpBaseText(Xw1)[0] == 'x' && OpBaseText(Aw2)[0] == 'a';
    assert OpBaseText(Rq1Lut)[2] == '1' && OpBaseText(Rq2Res)[2] == '2';
  }

  lemma NameBaseTextInjective(b: NameBase, b': NameBase)
    ensures Free(NameBaseText(b), '|') && Free(NameBaseText(b), '_') && Free(NameBaseText(b), ',')
    ensures NameBaseText(b) == NameBaseText(b') ==> b == b'
  {
    assert |NameBaseText(NX)| == 1 && NameBaseText(NX)[0] == 'X' && |NameBaseText(Nq)| == 1
      && NameBaseText(Nq)[0] == 'q';
    assert |NameBaseText(Nlut)| == 3;
    assert NameBaseText(NW1) == ['W', '1'] && NameBaseText(NW2) == ['W', '2'];
    assert NameBaseText(Nb1) == ['b', '1'] && NameBaseText(Nb2) == ['b', '2'];
  }

  lemma DigitsFree(s: string, c: char)
    requires Digits(s) && !('0' <= c <= '9')
    ensures Free(s, c)
  {
  }

  /** A tagged text `base` or `base<sep>number` can be read back. */
  lemma TagInjective(a: string, a': string, t: Option<nat>, t': Option<nat>, sep: char)
    requires Free(a, sep) && Free(a', sep)
    requires Tagged(a, t, sep) == Tagged(a', t', sep)
    ensures a == a' && t == t'
  {
    assert t.Some? <==> !Free(Tagged(a, t, sep), sep) by { if t.Some? { assert Tagged(a, t, sep)[|a|] == sep; } }
    assert t'.Some? <==> !Free(Tagged(a', t', sep), sep) by { if t'.Some? { assert Tagged(a', t', sep)[|a'|] == sep; } }
    if t.Some? {
      SplitFirst(a, a', sep, Decimal(t.value), Decimal(t'.value));
      DecimalInjective(t.value, t'.value);
    }
  }

  function Tagged(a: string, t: Option<nat>, sep: char): string {
    match t case None => a case Some(l) => a + [sep] + Decimal(l)
  }

  lemma OpTextInjective(op: Op, op': Op)
    ensures Free(OpText(op), '|')
    ensures OpText(op) == OpText(op') ==> op == op'
  {
    OpBaseTextInjective(op.base, op'.base);
    OpBaseTextInjective(op'.base, op.base);
    if op.block.Some? { DigitsFree(Decimal(op.block.value), '|'); }
    if OpText(op) == OpText(op') { TagInjective(OpBaseText(op.base), OpBaseText(op'.base), op.block, op'.block, '@'); }
  }

  lemma NameTextInjective(n: Name, n': Name)
    ensures Free(NameText(n), '|') && Free(NameText(n), ',')
    ensures NameText(n) == NameText(n') ==> n == n'
  {
    NameBaseTextInjective(n.base, n'.base);
    NameBaseTextInjective(n'.base, n.base);
    if n.block.Some? { DigitsFree(Decimal(n.block.value), '|'); DigitsFree(Decimal(n.block.value), ','); }
    if NameText(n) == NameText(n') {
      TagInjective(NameBaseText(n.base), NameBaseText(n'.base), n.block, n'.block, '_');
    }
  }

  lemma RefTextInjective(r: Ref, r': Ref)
    ensures Free(RefText(r), '|') && JoinField(RefText(r), ',')
    ensures RefText(r) == RefText(r') ==> r == r'
  {
    if r.In? { NameTextInjective(r.name, r.name); } else {
      DigitsFree(Decimal(r.j), '|');
      DigitsFree(Decimal(r.j), ',');
    }
    if RefText(r) == RefText(r') {
      assert RefText(r)[0] == if r.In? then 'i' else 's';
      assert RefText(r')[0] == if r'.In? then 'i' else 's';
      if r.In? {
        SplitFirst("in", "in", ':', NameText(r.name), NameText(r'.name));
        NameTextInjective(r.name, r'.name);
      } else {
        SplitFirst("seg", "seg", ':', Decimal(r.j), Decimal(r'.j));
        DecimalInjective(r.j, r'.j);
      }
    }
  }

  lemma InputsTextInjective(rs: seq<Ref>, rs': seq<Ref>)
    ensures Free(InputsText(rs), '|')
    ensures InputsText(rs) == InputsText(rs') ==> rs == rs'
  {
    forall k | 0 <= k < |rs| ensures Free(RefTexts(rs)[k], '|') && JoinField(RefTexts(rs)[k], ',') {
      RefTextInjective(rs[k], rs[k]);
    }
    forall k | 0 <= k < |rs'| ensures JoinField(RefTexts(rs')[k], ',') { RefTextInjective(rs'[k], rs'[k]); }
    JoinFree(RefTexts(rs), ',', '|');
    if InputsText(rs) == InputsText(rs') {
      JoinInjective(RefTexts(rs), RefTexts(rs'), ',');
      assert |rs| == |RefTexts(rs)| == |rs'|;
      forall k | 0 <= k < |rs| ensures rs[k] == rs'[k] {
        assert RefTexts(rs)[k] == RefTexts(rs')[k];
        RefTextInjective(rs[k], rs'[k]);
      }
    }
  }

  lemma HashFree(s: string)
    requires IsHash(s)
    ensures Free(s, '|')
  {
  }

  lemma LinkInjective(p: string, p': string, s: Spec, s': Spec, h: string, h': string)
    requires IsHash(p) && IsHash(p') && LinkText(p, s, h) == LinkText(p', s', h')
    ensures p == p' && s == s' && h == h'
  {
    HashFree(p);
    HashFree(p');
    var e, e' := InputsText(s.inputs) + ['|'] + h, InputsText(s'.inputs) + ['|'] + h';
    var d, d' := OpText(s.op) + ['|'] + e, OpText(s'.op) + ['|'] + e';
    var c, c' := KindText(s.kind) + ['|'] + d, KindText(s'.kind) + ['|'] + d';
    SplitFirst(p, p', '|', Decimal(s.idx) + ['|'] + c, Decimal(s'.idx) + ['|'] + c');
    DigitsFree(Decimal(s.idx), '|');
    DigitsFree(Decimal(s'.idx), '|');
    SplitFirst(Decimal(s.idx), Decimal(s'.idx), '|', c, c');
    DecimalInjective(s.idx, s'.idx);
    KindTextInjective(s.kind, s'.kind);
    KindTextInjective(s'.kind, s.kind);
    SplitFirst(KindText(s.kind), KindText(s'.kind), '|', d, d');
    OpTextInjective(s.op, s'.op);
    OpTextInjective(s'.op, s.op);
    SplitFirst(OpText(s.op), OpText(s'.op), '|', e, e');
    InputsTextInjective(s.inputs, s'.inputs);
    InputsTextInjective(s'.inputs, s.inputs);
    SplitFirst(InputsText(s.inputs), InputsText(s'.inputs), '|', h, h');
  }

  lemma FirstInjective(sigma: string, sigma': string, h: string, h': string)
    requires IsHash(h) && IsHash(h') && FirstText(sigma, h) == FirstText(sigma', h')
    ensures sigma == sigma' && h == h'
  {
    HashFree(h);
    HashFree(h');
    SplitFirst("cldc1", "cldc1", '|', sigma + ['|'] + h, sigma' + ['|'] + h');
    SplitLast(sigma, sigma', '|', h, h');
  }

  /** A first link is never a later link: a digest has no character `l`. */
  lemma FirstIsNotLink(sigma: string, h: string, p: string, s: Spec, h': string)
    requires IsHash(p)
    ensures FirstText(sigma, h) != LinkText(p, s, h')
  {
    assert FirstText(sigma, h)[1] == 'l';
    assert LinkText(p, s, h')[1] == p[1];
  }

  /** The last hashed texts agree only if the last segments, and the digests before them, do. */
  lemma LastBinds(hash: Hash, sigma: string, sigma': string, inHash: string, inHash': string,
                  plan: seq<Spec>, plan': seq<Spec>, outs: seq<string>, outs': seq<string>)
    requires |plan| == |outs| && |plan'| == |outs'| && IsHash(inHash) && IsHash(inHash') && forall q :: IsHash(hash(q))
    requires LastText(hash, sigma, inHash, plan, outs) == LastText(hash, sigma', inHash', plan', outs')
    ensures plan == [] <==> plan' == []
    ensures plan == [] ==> sigma == sigma' && inHash == inHash'
    ensures plan != [] ==>
      var n, m := |plan| - 1, |plan'| - 1;
      && Root(hash, sigma, inHash, plan[..n], outs[..n]) == Root(hash, sigma', inHash', plan'[..m], outs'[..m])
      && plan[n] == plan'[m] && outs[n] == outs'[m]
  {
    if plan == [] && plan' == [] {
      FirstInjective(sigma, sigma', inHash, inHash');
    } else if plan == [] {
      var n := |plan'| - 1;
      FirstIsNotLink(sigma, inHash, Root(hash, sigma', inHash', plan'[..n], outs'[..n]), plan'[n], outs'[n]);
    } else if plan' == [] {
      var n := |plan| - 1;
      FirstIsNotLink(sigma', inHash', Root(hash, sigma, inHash, plan[..n], outs[..n]), plan[n], outs[n]);
    } else {
      var n, m := |plan| - 1, |plan'| - 1;
      LinkInjective(Root(hash, sigma, inHash, plan[..n], outs[..n]),
        Root(hash, sigma', inHash', plan'[..m], outs'[..m]),
                    plan[n], plan'[m], outs[n], outs'[m]);
    }
  }

  /** No two different texts of the two computations share a digest. */
  ghost predicate NoCollision(hash: Hash, qs: set<string>, qs': set<string>) {
    forall q, q' :: q in qs && q' in qs' && hash(q) == hash(q') ==> q == q'
  }

  /**
   The chain root binds everything it folds: equal roots mean equal sigma, input hash, plan and
   segment hashes, also when the plans could have had different lengths.
   */
  lemma {:induction false} RootBinds(hash: Hash, sigma: string, sigma': string, inHash: string, inHash': string,
                                     plan: seq<Spec>, plan': seq<Spec>, outs: seq<string>, outs': seq<string>)
    requires |plan| == |outs| && |plan'| == |outs'| && IsHash(inHash) && IsHash(inHash')
    requires forall q :: IsHash(hash(q))
    requires NoCollision(hash, Queries(hash, sigma, inHash, plan, outs), Queries(hash, sigma', inHash', plan', outs'))
    requires Root(hash, sigma, inHash, plan, outs) == Root(hash, sigma', inHash', plan', outs')
    ensures sigma == sigma' && inHash == inHash' && plan == plan' && outs == outs'
    decreases |plan|
  {
    SameLast(hash, sigma, sigma', inHash, inHash', plan, plan', outs, outs');
    LastBinds(hash, sigma, sigma', inHash, inHash', plan, plan', outs, outs');
    if plan != [] {
      var n, m := |plan| - 1, |plan'| - 1;
      FewerQueries(hash, sigma, sigma', inHash, inHash', plan, plan', outs, outs', n, m);
      RootBinds(hash, sigma, sigma', inHash, inHash', plan[..n], plan'[..m], outs[..n], outs'[..m]);
      SameSnoc(plan, plan');
      SameSnoc(outs, outs');
    }
  }

  /** Equal roots hash the same last text. */
  lemma SameLast(hash: Hash, sigma: string, sigma': string, inHash: string, inHash': string,
                 plan: seq<Spec>, plan': seq<Spec>, outs: seq<string>, outs': seq<string>)
    requires |plan| == |outs| && |plan'| == |outs'|
    requires NoCollision(hash, Queries(hash, sigma, inHash, plan, outs), Queries(hash, sigma', inHash', plan', outs'))
    requires Root(hash, sigma, inHash, plan, outs) == Root(hash, sigma', inHash', plan', outs')
    ensures LastText(hash, sigma, inHash, plan, outs) == LastText(hash, sigma', inHash', plan', outs')
  {
  }

  lemma FewerQueries(hash: Hash, sigma: string, sigma': string, inHash: string, inHash': string,
                     plan: seq<Spec>, plan': seq<Spec>, outs: seq<string>, outs': seq<string>, n: nat, m: nat)
    requires |plan| == |outs| == n + 1 && |plan'| == |outs'| == m + 1
    requires NoCollision(hash, Queries(hash, sigma, inHash, plan, outs), Queries(hash, sigma', inHash', plan', outs'))
    ensures NoCollision(hash, Queries(hash, sigma, inHash, plan[..n], outs[..n]),
      Queries(hash, sigma', inHash', plan'[..m], outs'[..m]))
  {
    assert Queries(hash, sigma, inHash, plan[..n], outs[..n]) <= Queries(hash, sigma, inHash, plan, outs);
    assert Queries(hash, sigma', inHash', plan'[..m], outs'[..m]) <= Queries(hash, sigma', inHash', plan', outs');
  }

  lemma SameSnoc<T>(a: seq<T>, b: seq<T>)
    requires a != [] && b != [] && a[..|a| - 1] == b[..|b| - 1] && a[|a| - 1] == b[|b| - 1]
    ensures a == b
  {
    assert a == a[..|a| - 1] + [a[|a| - 1]] && b == b[..|b| - 1] + [b[|b| - 1]];
  }
}
