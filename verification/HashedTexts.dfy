/**
 What is hashed, written out: the bytes of a tensor and the links of a plan, by the characters the two sides of
 shared/verification.ts must agree on.
 */
module HashedTexts {
  import opened Text
  import opened Tensors
  import opened Int8Work
  import opened Chain

  // ---- Tensors ----

  function Pow256(j: nat): (p: int)
    ensures p > 0
  {
    if j == 0 then 1 else 256 * Pow256(j - 1)
  }

  lemma Pow256Values()
    ensures Pow256(0) == 1 && Pow256(1) == 0x100 && Pow256(2) == 0x1_0000 && Pow256(3) == 0x100_0000
  {
  }

  /** Little-endian: byte `j` of entry `i` has the weight `256^j`. */
  lemma {:induction false} DataByte(d: Dtype, data: seq<int>, w: nat, i: nat, j: nat)
    requires i < |data| && w == (if d.I8? then 1 else 4) && j < w
    ensures |DataBytes(d, data)| == w * |data|
    ensures w * i + j < w * |data| && DataBytes(d, data)[w * i + j] as int == data[i] / Pow256(j) % 256
    decreases |data|
  {
    var n := |data| - 1;
    if n > 0 { DataByte(d, data[..n], w, if i < n then i else 0, j); }
    Pow256Values();
  }

  /** One to four dimensions, joined by `x`. */
  function DimsOf(s: seq<int>): string
    requires 1 <= |s| <= 4 && forall k :: 0 <= k < |s| ==> s[k] > 0
  {
    if |s| == 1 then Decimal(s[0])
    else if |s| == 2 then Decimal(s[0]) + "x" + Decimal(s[1])
    else if |s| == 3 then Decimal(s[0]) + "x" + Decimal(s[1]) + "x" + Decimal(s[2])
    else Decimal(s[0]) + "x" + Decimal(s[1]) + "x" + Decimal(s[2]) + "x" + Decimal(s[3])
  }

  lemma JoinTwo(x: string, y: string, sep: char)
    ensures Join([x], sep) == x && Join([x, y], sep) == x + [sep] + y
  {
    assert [x, y][1..] == [y];
  }

  lemma JoinThree(x: string, y: string, z: string, sep: char)
    ensures Join([x, y, z], sep) == x + [sep] + y + [sep] + z
  {
    JoinTwo(y, z, sep);
    assert [x, y, z][1..] == [y, z];
    assert x + [sep] + (y + [sep] + z) == x + [sep] + y + [sep] + z;
  }

  lemma JoinFour(x: string, y: string, z: string, w: string, sep: char)
    ensures Join([x, y, z, w], sep) == x + [sep] + y + [sep] + z + [sep] + w
  {
    JoinThree(y, z, w, sep);
    assert [x, y, z, w][1..] == [y, z, w];
    assert x + [sep] + (y + [sep] + z + [sep] + w) == x + [sep] + y + [sep] + z + [sep] + w;
  }

  lemma DimsAre(s: seq<int>)
    requires 1 <= |s| <= 4 && forall k :: 0 <= k < |s| ==> s[k] > 0
    ensures Join(DimTexts(s), 'x') == DimsOf(s)
  {
    var a, t := Decimal(s[0]), DimTexts(s);
    if |s| == 1 {
      assert t == [a];
      JoinTwo(a, a, 'x');
    } else if |s| == 2 {
      assert t == [a, Decimal(s[1])];
      JoinTwo(a, Decimal(s[1]), 'x');
    } else if |s| == 3 {
      assert t == [a, Decimal(s[1]), Decimal(s[2])];
      JoinThree(a, Decimal(s[1]), Decimal(s[2]), 'x');
    } else {
      assert t == [a, Decimal(s[1]), Decimal(s[2]), Decimal(s[3])];
      JoinFour(a, Decimal(s[1]), Decimal(s[2]), Decimal(s[3]), 'x');
    }
  }

  /** The bytes hashed for a tensor: tag, dtype, dimensions and data, between bars. */
  lemma TensorText(t: Tensor)
    requires ValidTensor(t)
    ensures TensorBytes(t)
      == "cldt1|" + (if t.dtype.I8? then "i8" else "i32") + "|" + DimsOf(t.shape) + "|" + DataBytes(t.dtype, t.data)
  {
    DimsAre(t.shape);
  }

  // ---- Plan links ----

  function OpTag(job: Job, l: nat): string { if job.kind.Mlp? then "" else "@" + Decimal(l) }
  function NameTag(job: Job, l: nat): string { if job.kind.Mlp? then "" else "_" + Decimal(l) }

  /** Where block `l` reads its input. */
  function XText(l: nat): string { if l == 0 then "in:X" else "seg:" + Decimal(4 * l - 1) }

  function OpField(job: Job, l: nat, c: nat): string {
    (if c == 0 then "xw1" else if c == 1 then "rq1_lut" else if c == 2 then "aw2" else "rq2_res") + OpTag(job, l)
  }

  function InputsField(job: Job, l: nat, c: nat): string {
    var n := NameTag(job, l);
    if c == 0 then XText(l) + "," + ("in:W1" + n) + "," + ("in:b1" + n)
    else if c == 1 then "seg:" + Decimal(4 * l)
    else if c == 2 then "seg:" + Decimal(4 * l + 1) + "," + ("in:W2" + n) + "," + ("in:b2" + n)
    else "seg:" + Decimal(4 * l + 2) + "," + XText(l)
  }

  /** Segment `c` of block `l` in the chain's text, between the link before it and its output's hash. */
  function SegmentText(job: Job, l: nat, c: nat): string {
    Decimal(4 * l + c) + "|" + (if c == 0 || c == 2 then "gemm" else "elementwise") + "|" + OpField(job, l, c) + "|"
      + InputsField(job, l, c)
  }

  lemma TwoRefs(a: Ref, b: Ref)
    ensures InputsText([a]) == RefText(a)
    ensures InputsText([a, b]) == RefText(a) + "," + RefText(b)
  {
    JoinTwo(RefText(a), RefText(b), ',');
    assert RefTexts([a]) == [RefText(a)] && RefTexts([a, b]) == [RefText(a), RefText(b)];
  }

  lemma ThreeRefs(a: Ref, b: Ref, c: Ref)
    ensures InputsText([a, b, c]) == RefText(a) + "," + RefText(b) + "," + RefText(c)
  {
    JoinThree(RefText(a), RefText(b), RefText(c), ',');
    assert RefTexts([a, b, c]) == [RefText(a), RefText(b), RefText(c)];
  }

  lemma XRefIs(l: nat)
    ensures RefText(XRef(l)) == XText(l)
  {
  }

  lemma NameIs(job: Job, l: nat, b: NameBase, base: string)
    requires base == NameBaseText(b)
    ensures RefText(In(Name(b, Tag(job, l)))) == "in:" + base + NameTag(job, l)
  {
  }

  lemma OpIs(job: Job, l: nat, b: OpBase, base: string)
    requires base == OpBaseText(b)
    ensures OpText(Op(b, Tag(job, l))) == base + OpTag(job, l)
  {
  }

  lemma OpFieldIs(job: Job, l: nat, c: nat)
    requires c < 4
    ensures OpText(BlockSpec(job, l, c).op) == OpField(job, l, c)
  {
    if c == 0 {
      OpIs(job, l, Xw1, "xw1");
    } else if c == 1 {
      OpIs(job, l, Rq1Lut, "rq1_lut");
    } else if c == 2 {
      OpIs(job, l, Aw2, "aw2");
    } else {
      OpIs(job, l, Rq2Res, "rq2_res");
    }
  }

  lemma WeightsAre(job: Job, l: nat)
    ensures RefText(In(Name(NW1, Tag(job, l)))) == "in:W1" + NameTag(job, l)
    ensures RefText(In(Name(Nb1, Tag(job, l)))) == "in:b1" + NameTag(job, l)
    ensures RefText(In(Name(NW2, Tag(job, l)))) == "in:W2" + NameTag(job, l)
    ensures RefText(In(Name(Nb2, Tag(job, l)))) == "in:b2" + NameTag(job, l)
  {
    NameIs(job, l, NW1, "W1");
    NameIs(job, l, Nb1, "b1");
    NameIs(job, l, NW2, "W2");
    NameIs(job, l, Nb2, "b2");
  }

  lemma InputsFieldIs(job: Job, l: nat, c: nat)
    requires c < 4
    ensures InputsText(BlockSpec(job, l, c).inputs) == InputsField(job, l, c)
  {
    var t := Tag(job, l);
    XRefIs(l);
    if c == 0 {
      WeightsAre(job, l);
      ThreeRefs(XRef(l), In(Name(NW1, t)), In(Name(Nb1, t)));
    } else if c == 1 {
      TwoRefs(Seg(4 * l), Seg(4 * l));
    } else if c == 2 {
      WeightsAre(job, l);
      ThreeRefs(Seg(4 * l + 1), In(Name(NW2, t)), In(Name(Nb2, t)));
    } else {
      TwoRefs(Seg(4 * l + 2), XRef(l));
    }
  }

  lemma KindFieldIs(job: Job, l: nat, c: nat)
    requires c < 4
    ensures KindText(BlockSpec(job, l, c).kind) == if c == 0 || c == 2 then "gemm" else "elementwise"
    ensures BlockSpec(job, l, c).idx == 4 * l + c
  {
  }

  lemma Fields(prev: string, s: Spec, h: string, idx: string, kind: string, op: string, inputs: string)
    requires idx == Decimal(s.idx) && kind == KindText(s.kind) && op == OpText(s.op) && inputs == InputsText(s.inputs)
    ensures LinkText(prev, s, h) == prev + "|" + (idx + "|" + kind + "|" + op + "|" + inputs) + "|" + h
  {
  }

  /** The link of every segment of a plan, character by character. */
  lemma LinksWrittenOut(prev: string, job: Job, l: nat, c: nat, h: string)
    requires l < |job.blocks| && c < 4
    ensures LinkText(prev, Plan(job)[4 * l + c], h) == prev + "|" + SegmentText(job, l, c) + "|" + h
  {
    var spec := Plan(job)[4 * l + c];
    assert spec == BlockSpec(job, l, c);
    KindFieldIs(job, l, c);
    OpFieldIs(job, l, c);
    InputsFieldIs(job, l, c);
    Fields(prev, spec, h, Decimal(spec.idx), KindText(spec.kind), OpText(spec.op), InputsText(spec.inputs));
  }

  /** The chain starts from sigma and the input hash. */
  lemma ChainStarts(hash: Hash, sigma: string, inHash: string)
    ensures Root(hash, sigma, inHash, [], []) == hash("cldc1|" + sigma + "|" + inHash)
  {
    assert FirstText(sigma, inHash) == "cldc1|" + sigma + "|" + inHash;
  }

  /** Each segment of a job's plan adds its link, spelled out, to the chain over the segments before it. */
  lemma ChainGrows(hash: Hash, sigma: string, inHash: string, job: Job, plan: seq<Spec>, outHashes: seq<string>, l: nat,
                   c: nat, i: nat, prev: string, text: string)
    requires plan == Plan(job) && |outHashes| == |plan| && l < |job.blocks| && c < 4 && i == 4 * l + c
    requires prev == Root(hash, sigma, inHash, plan[..i], outHashes[..i]) && text == SegmentText(job, l, c)
    ensures Root(hash, sigma, inHash, plan[..i + 1], outHashes[..i + 1])
      == hash(prev + "|" + text + "|" + outHashes[i])
  {
    LinksWrittenOut(prev, job, l, c, outHashes[i]);
    NextLink(hash, sigma, inHash, plan, outHashes, i);
  }

  lemma NextLink(hash: Hash, sigma: string, inHash: string, plan: seq<Spec>, outs: seq<string>, i: nat)
    requires |plan| == |outs| && i < |plan|
    ensures Root(hash, sigma, inHash, plan[..i + 1], outs[..i + 1])
      == hash(LinkText(Root(hash, sigma, inHash, plan[..i], outs[..i]), plan[i], outs[i]))
  {
    assert plan[..i + 1][..i] == plan[..i] && outs[..i + 1][..i] == outs[..i];
  }
}
