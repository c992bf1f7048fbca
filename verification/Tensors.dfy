/**
 Tensors and their hash (shared/verification.ts). Hashed bytes are modelled as characters with
 codes 0 to 255; the hash function is a parameter.
 */
module Tensors {
  import opened Text

  type Hash = string -> string

  datatype Dtype = I8 | I32

  datatype Tensor = Tensor(dtype: Dtype, shape: seq<int>, data: seq<int>)

  /** A tensor's dtype and exact shape. */
  datatype Sig = Sig(dtype: Dtype, shape: seq<int>)

  function Product(shape: seq<int>): int {
    if shape == [] then 1 else shape[0] * Product(shape[1..])
  }

  predicate InRange(dtype: Dtype, v: int) {
    match dtype
    case I8 => -128 <= v <= 127
    case I32 => -0x8000_0000 <= v <= 0x7fff_ffff
  }

  predicate ValidTensor(t: Tensor) {
    && 1 <= |t.shape| <= 4
    && (forall k :: 0 <= k < |t.shape| ==> t.shape[k] > 0)
    && |t.data| == Product(t.shape)
    && forall k :: 0 <= k < |t.data| ==> InRange(t.dtype, t.data[k])
  }

  predicate HasSig(t: Tensor, s: Sig) { t.dtype == s.dtype && t.shape == s.shape }

  function DtypeText(d: Dtype): string { match d case I8 => "i8" case I32 => "i32" }

  function Byte(v: int): char { (v % 256) as char }

  /** Two's complement, little-endian: one byte for i8, four for i32. */
  function EntryBytes(d: Dtype, v: int): (s: string)
    ensures |s| == Width(d)
  {
    match d
    case I8 => [Byte(v)]
    case I32 => [Byte(v), Byte(v / 0x100), Byte(v / 0x1_0000), Byte(v / 0x100_0000)]
  }

  function Width(d: Dtype): nat { match d case I8 => 1 case I32 => 4 }

  function DataBytes(d: Dtype, data: seq<int>): (s: string) {
    if data == [] then "" else DataBytes(d, data[..|data| - 1]) + EntryBytes(d, data[|data| - 1])
  }

  function DimTexts(shape: seq<int>): seq<string>
    requires forall k :: 0 <= k < |shape| ==> shape[k] > 0
  {
    seq(|shape|, k requires 0 <= k < |shape| => Decimal(shape[k]))
  }

  function Dims(t: Tensor): string
    requires ValidTensor(t)
  {
    Join(DimTexts(t.shape), 'x')
  }

  function Head(t: Tensor): string
    requires ValidTensor(t)
  {
    "cldt1" + ['|'] + DtypeText(t.dtype) + ['|'] + Dims(t) + ['|']
  }

  /** What is hashed: header, then the entries. */
  function TensorBytes(t: Tensor): string
    requires ValidTensor(t)
  {
    Head(t) + DataBytes(t.dtype, t.data)
  }

  function TensorHash(hash: Hash, t: Tensor): string
    requires ValidTensor(t)
  {
    hash(TensorBytes(t))
  }

  /** Writes one entry into the buffer at `at`. */
  method SetEntry(buf: array<char>, at: nat, entry: string)
    requires at + |entry| <= buf.Length
    modifies buf
    ensures buf[..at + |entry|] == old(buf[..at]) + entry
  {
    for k := 0 to |entry|
      invariant buf[..at + k] == old(buf[..at]) + entry[..k]
    {
      buf[at + k] := entry[k];
    }
  }

  /** `n * width`. */
  function Room(d: Dtype, n: nat): nat { match d case I8 => n case I32 => 4 * n }

  /** Fills the buffer, header first and then entry by entry, as the DataView writes do. */
  method Fill(head: string, d: Dtype, data: seq<int>) returns (bytes: string)
    ensures bytes == head + DataBytes(d, data)
  {
    var buf := new char[|head| + Room(d, |data|)];
    SetEntry(buf, 0, head);
    var at := |head|;
    assert buf[..at] == head + DataBytes(d, data[..0]);
    for i := 0 to |data|
      invariant at + Room(d, |data| - i) == buf.Length
      invariant buf[..at] == head + DataBytes(d, data[..i])
    {
      ghost var before := buf[..at];
      var entry := EntryBytes(d, data[i]);
      SetEntry(buf, at, entry);
      at := at + |entry|;
      FillStep(head, d, data, i, before, buf[..at]);
    }
    assert data[..|data|] == data;
    bytes := buf[..];
    assert buf[..] == buf[..at];
  }

  lemma FillStep(head: string, d: Dtype, data: seq<int>, i: nat, before: string, after: string)
    requires i < |data| && before == head + DataBytes(d, data[..i]) && after == before + EntryBytes(d, data[i])
    ensures after == head + DataBytes(d, data[..i + 1])
  {
    DataBytesStep(d, data, i);
  }

  lemma DataBytesStep(d: Dtype, data: seq<int>, i: nat)
    requires i < |data|
    ensures DataBytes(d, data[..i + 1]) == DataBytes(d, data[..i]) + EntryBytes(d, data[i])
  {
    assert data[..i + 1][..i] == data[..i];
  }

  method EncodeTensor(t: Tensor) returns (bytes: string)
    requires ValidTensor(t)
    ensures bytes == TensorBytes(t)
  {
    bytes := Fill(Head(t), t.dtype, t.data);
  }

  lemma ByteInjective(d: Dtype, v: int, w: int)
    requires InRange(d, v) && InRange(d, w) && EntryBytes(d, v) == EntryBytes(d, w)
    ensures v == w
  {
    if d.I8? {
      SameOne(v, w);
    } else {
      SameFour(v, w);
      FourBytes(v);
      FourBytes(w);
      Unwrap(v, w);
    }
  }

  lemma Unwrap(v: int, w: int)
    requires InRange(I32, v) && InRange(I32, w)
      && (if v >= 0 then v else v + 0x1_0000_0000) == (if w >= 0 then w else w + 0x1_0000_0000)
    ensures v == w
  {
  }

  lemma SameOne(v: int, w: int)
    requires InRange(I8, v) && InRange(I8, w) && EntryBytes(I8, v) == EntryBytes(I8, w)
    ensures v == w
  {
    assert EntryBytes(I8, v)[0] == EntryBytes(I8, w)[0];
    SameByte(v, w);
  }

  lemma SameByte(v: int, w: int)
    requires Byte(v) == Byte(w)
    ensures v % 256 == w % 256
  {
  }

  lemma SameFour(v: int, w: int)
    requires EntryBytes(I32, v) == EntryBytes(I32, w)
    ensures v % 256 == w % 256 && v / 0x100 % 256 == w / 0x100 % 256 && v / 0x1_0000 % 256 == w / 0x1_0000 % 256
      && v / 0x100_0000 % 256 == w / 0x100_0000 % 256
  {
    var a, b := EntryBytes(I32, v), EntryBytes(I32, w);
    assert a[0] == b[0] && a[1] == b[1] && a[2] == b[2] && a[3] == b[3];
    SameByte(v, w);
    SameByte(v / 0x100, w / 0x100);
    SameByte(v / 0x1_0000, w / 0x1_0000);
    SameByte(v / 0x100_0000, w / 0x100_0000);
  }

  lemma FourBytes(v: int)
    requires InRange(I32, v)
    ensures v % 256 + 0x100 * (v / 0x100 % 256) + 0x1_0000 * (v / 0x1_0000 % 256) + 0x100_0000 * (v / 0x100_0000 % 256)
         == if v >= 0 then v else v + 0x1_0000_0000
  {
    assert v / 0x1_0000 == v / 0x100 / 0x100;
    assert v / 0x100_0000 == v / 0x1_0000 / 0x100;
  }

  lemma {:induction false} DataBytesInjective(d: Dtype, x: seq<int>, y: seq<int>)
    requires |x| == |y| && DataBytes(d, x) == DataBytes(d, y)
    requires forall k :: 0 <= k < |x| ==> InRange(d, x[k])
    requires forall k :: 0 <= k < |y| ==> InRange(d, y[k])
    ensures x == y
  {
    if x != [] {
      var n := |x| - 1;
      SplitSuffix(DataBytes(d, x[..n]), DataBytes(d, y[..n]), EntryBytes(d, x[n]), EntryBytes(d, y[n]));
      DataBytesInjective(d, x[..n], y[..n]);
      ByteInjective(d, x[n], y[n]);
      assert x == x[..n] + [x[n]] && y == y[..n] + [y[n]];
    }
  }

  lemma DimsFree(shape: seq<int>, c: char)
    requires (forall k :: 0 <= k < |shape| ==> shape[k] > 0) && !('0' <= c <= '9')
    ensures forall k :: 0 <= k < |shape| ==> JoinField(DimTexts(shape)[k], c)
  {
  }

  lemma ShapeInjective(s: seq<int>, s': seq<int>)
    requires (forall k :: 0 <= k < |s| ==> s[k] > 0) && (forall k :: 0 <= k < |s'| ==> s'[k] > 0)
    requires Join(DimTexts(s), 'x') == Join(DimTexts(s'), 'x')
    ensures s == s'
  {
    DimsFree(s, 'x');
    DimsFree(s', 'x');
    JoinInjective(DimTexts(s), DimTexts(s'), 'x');
    assert |s| == |DimTexts(s)| == |DimTexts(s')| == |s'|;
    forall k | 0 <= k < |s| ensures s[k] == s'[k] {
      assert DimTexts(s)[k] == DimTexts(s')[k];
      DecimalInjective(s[k], s'[k]);
    }
  }

  lemma BytesNested(t: Tensor)
    requires ValidTensor(t)
    ensures TensorBytes(t)
      == "cldt1" + ['|'] + (DtypeText(t.dtype) + ['|'] + (Dims(t) + ['|'] + DataBytes(t.dtype, t.data)))
  {
  }

  lemma DtypeTextInjective(d: Dtype, d': Dtype)
    requires DtypeText(d) == DtypeText(d')
    ensures d == d' && Free(DtypeText(d), '|')
  {
    assert |DtypeText(d)| == |DtypeText(d')|;
  }

  lemma DtypeTextFree(d: Dtype)
    ensures Free(DtypeText(d), '|')
  {
  }

  lemma DimsTextFree(t: Tensor)
    requires ValidTensor(t)
    ensures Free(Dims(t), '|')
  {
    DimsFree(t.shape, '|');
    JoinFree(DimTexts(t.shape), 'x', '|');
  }

  /** Two different well-formed tensors are never hashed from the same bytes. */
  lemma TensorBytesInjective(t: Tensor, t': Tensor)
    requires ValidTensor(t) && ValidTensor(t') && TensorBytes(t) == TensorBytes(t')
    ensures t == t'
  {
    var body, body' := Dims(t) + ['|'] + DataBytes(t.dtype, t.data), Dims(t') + ['|'] + DataBytes(t'.dtype, t'.data);
    BytesNested(t);
    BytesNested(t');
    SplitFirst("cldt1", "cldt1", '|', DtypeText(t.dtype) + ['|'] + body, DtypeText(t'.dtype) + ['|'] + body');
    DtypeTextFree(t.dtype);
    DtypeTextFree(t'.dtype);
    SplitFirst(DtypeText(t.dtype), DtypeText(t'.dtype), '|', body, body');
    DtypeTextInjective(t.dtype, t'.dtype);
    DimsTextFree(t);
    DimsTextFree(t');
    SplitFirst(Dims(t), Dims(t'), '|', DataBytes(t.dtype, t.data), DataBytes(t'.dtype, t'.data));
    ShapeInjective(t.shape, t'.shape);
    DataBytesInjective(t.dtype, t.data, t'.data);
  }

  /** No two of these tensors share a hash. */
  ghost predicate NoCollision(hash: Hash, ts: set<Tensor>) {
    forall t, t' | t in ts && t' in ts && ValidTensor(t) && ValidTensor(t') ::
      TensorHash(hash, t) == TensorHash(hash, t') ==> TensorBytes(t) == TensorBytes(t')
  }

  lemma SameHashSameTensor(hash: Hash, ts: set<Tensor>, t: Tensor, t': Tensor)
    requires NoCollision(hash, ts) && t in ts && t' in ts && ValidTensor(t) && ValidTensor(t')
    requires TensorHash(hash, t) == TensorHash(hash, t')
    ensures t == t'
  {
    TensorBytesInjective(t, t');
  }
}
