/**
 The hash of a job's named inputs (shared/verification.ts): it depends on nothing but the record, and binds every name
 to its tensor.
 */
module InputHash {
  import opened Wrappers
  import opened Text
  import opened Tensors
  import opened Int8Work
  import Chain

  /** The order of `sort()` on strings: by character, a prefix first. */
  predicate Precedes(a: string, b: string)
    decreases |a|
  {
    b != [] && (a == [] || a[0] < b[0] || (a[0] == b[0] && Precedes(a[1..], b[1..])))
  }

  lemma {:induction false} PrecedesTotal(a: string, b: string)
    ensures !(Precedes(a, b) && Precedes(b, a)) && !Precedes(a, a)
    ensures a == b || Precedes(a, b) || Precedes(b, a)
    decreases |a|
  {
    if a != [] && b != [] {
      PrecedesTotal(a[1..], b[1..]);
      assert a == [a[0]] + a[1..] && b == [b[0]] + b[1..];
    }
    if a != [] { PrecedesTotal(a[1..], a[1..]); }
  }

  lemma {:induction false} PrecedesTrans(a: string, b: string, c: string)
    requires Precedes(a, b) && Precedes(b, c)
    ensures Precedes(a, c)
    decreases |a|
  {
    if a != [] && Precedes(a[1..], b[1..]) && Precedes(b[1..], c[1..]) { PrecedesTrans(a[1..], b[1..], c[1..]); }
  }

  /** `a` and `b` agree before place `k`, where `b` goes on and `a` ends or has the smaller character. */
  ghost predicate FirstDiffers(a: string, b: string, k: nat) {
    k <= |a| && k < |b| && a[..k] == b[..k] && (k == |a| || a[k] < b[k])
  }

  /** The order, by the first place where two names differ. */
  lemma {:induction false} PrecedesIff(a: string, b: string)
    ensures Precedes(a, b) <==> exists k: nat :: FirstDiffers(a, b, k)
    decreases |a|
  {
    if b != [] && (a == [] || a[0] < b[0]) {
      assert FirstDiffers(a, b, 0);
    } else if b != [] && a[0] == b[0] {
      PrecedesIff(a[1..], b[1..]);
      assert a == [a[0]] + a[1..] && b == [b[0]] + b[1..];
      if k: nat :| FirstDiffers(a[1..], b[1..], k) {
        assert a[..k + 1] == [a[0]] + a[1..][..k] && b[..k + 1] == [b[0]] + b[1..][..k];
        assert FirstDiffers(a, b, k + 1);
      }
      if k: nat :| FirstDiffers(a, b, k) { DiffersLater(a, b, k); }
    } else if b != [] {
      forall k: nat ensures FirstDiffers(a, b, k) ==> k == 0 || a[0] == b[0] { SameStart(a, b, k); }
    }
  }

  lemma SameStart(a: string, b: string, k: nat)
    ensures FirstDiffers(a, b, k) ==> k == 0 || a[0] == b[0]
  {
    if k > 0 && FirstDiffers(a, b, k) { assert a[..k][0] == b[..k][0]; }
  }

  lemma DiffersLater(a: string, b: string, k: nat)
    requires FirstDiffers(a, b, k) && a != [] && b != [] && a[0] == b[0]
    ensures k > 0 && FirstDiffers(a[1..], b[1..], k - 1)
  {
    assert a[1..][..k - 1] == a[..k][1..] && b[1..][..k - 1] == b[..k][1..];
  }

  predicate Ascends(s: seq<string>) { forall i, j :: 0 <= i < j < |s| ==> Precedes(s[i], s[j]) }

  predicate Distinct(s: seq<string>) { forall i, j :: 0 <= i < j < |s| ==> s[i] != s[j] }

  /** `Object.keys(inputs).sort()` for keys listed in any order. */
  function SortNames(keys: seq<string>): (r: seq<string>)
    ensures forall x :: x in r <==> x in keys
  {
    if keys == [] then [] else
    assert keys == [keys[0]] + keys[1..];
    Insert(keys[0], SortNames(keys[1..]))
  }

  function Insert(x: string, s: seq<string>): (r: seq<string>)
    ensures forall y :: y in r <==> y == x || y in s
  {
    if s == [] then [x]
    else
      assert s == [s[0]] + s[1..];
      if Precedes(x, s[0]) then [x] + s else [s[0]] + Insert(x, s[1..])
  }

  lemma {:induction false} InsertAscends(x: string, s: seq<string>)
    requires Ascends(s) && x !in s
    ensures Ascends(Insert(x, s))
  {
    if s != [] {
      PrecedesTotal(x, s[0]);
      if Precedes(x, s[0]) {
        forall j | 0 < j < |s| ensures Precedes(x, s[j]) { PrecedesTrans(x, s[0], s[j]); }
      } else {
        InsertAscends(x, s[1..]);
        var rest := Insert(x, s[1..]);
        forall j | 0 <= j < |rest| ensures Precedes(s[0], rest[j]) { assert rest[j] in rest; }
      }
    }
  }

  lemma {:induction false} SortAscends(keys: seq<string>)
    requires Distinct(keys)
    ensures Ascends(SortNames(keys))
  {
    if keys != [] {
      SortAscends(keys[1..]);
      InsertAscends(keys[0], SortNames(keys[1..]));
    }
  }

  /** A set has one ascending list. */
  lemma {:induction false} AscendingUnique(s: seq<string>, t: seq<string>)
    requires Ascends(s) && Ascends(t) && forall x :: x in s <==> x in t
    ensures s == t
  {
    SameEmptiness(s, t);
    if s != [] {
      assert s[0] in t && t[0] in s;
      var i :| 0 <= i < |t| && t[i] == s[0];
      var j :| 0 <= j < |s| && s[j] == t[0];
      PrecedesTotal(s[0], t[0]);
      PrecedesTotal(t[0], s[0]);
      forall x ensures x in s[1..] <==> x in t[1..] { TailHas(s, x); TailHas(t, x); }
      AscendingUnique(s[1..], t[1..]);
      assert s == [s[0]] + s[1..] && t == [t[0]] + t[1..];
    }
  }

  lemma SameEmptiness(s: seq<string>, t: seq<string>)
    requires forall x :: x in s <==> x in t
    ensures s == [] <==> t == []
  {
    if s != [] { assert s[0] in t; }
    if t != [] { assert t[0] in s; }
  }

  lemma TailHas(s: seq<string>, x: string)
    requires s != [] && Ascends(s)
    ensures x in s[1..] <==> x in s && x != s[0]
  {
    PrecedesTotal(s[0], s[0]);
    assert s == [s[0]] + s[1..];
  }

  // ---- The hash ----

  /** `keys` lists the names of `m`, each once, in whatever order the object holds them. */
  ghost predicate KeysOf<T>(keys: seq<string>, m: map<string, T>) {
    Distinct(keys) && forall x :: x in keys <==> x in m
  }

  function Line(name: string, digest: string): string { name + [':'] + digest }

  function Lines(names: seq<string>, digests: map<string, string>): seq<string>
    requires forall x :: x in names ==> x in digests
  {
    seq(|names|, k requires 0 <= k < |names| => Line(names[k], digests[names[k]]))
  }

  function LinesText(keys: seq<string>, digests: map<string, string>): string
    requires forall x :: x in keys ==> x in digests
  {
    Join(Lines(SortNames(keys), digests), '\n')
  }

  /** A record of well-formed tensors; `tensorHash` throws on any other. */
  ghost predicate Inputs(inputs: map<string, Tensor>) { forall x :: x in inputs ==> ValidTensor(inputs[x]) }

  ghost function Digests(hash: Hash, inputs: map<string, Tensor>): map<string, string>
    requires Inputs(inputs)
  {
    map x | x in inputs :: TensorHash(hash, inputs[x])
  }

  /** What `inputHash` hashes. */
  ghost function InputText(hash: Hash, keys: seq<string>, inputs: map<string, Tensor>): string
    requires Inputs(inputs) && KeysOf(keys, inputs)
  {
    LinesText(keys, Digests(hash, inputs))
  }

  ghost function HashOfInputs(hash: Hash, keys: seq<string>, inputs: map<string, Tensor>): string
    requires Inputs(inputs) && KeysOf(keys, inputs)
  {
    hash(InputText(hash, keys, inputs))
  }

  /** The order in which the object lists its names does not matter. */
  lemma HashIgnoresOrder(hash: Hash, keys: seq<string>, keys': seq<string>, inputs: map<string, Tensor>)
    requires Inputs(inputs) && KeysOf(keys, inputs) && KeysOf(keys', inputs)
    ensures HashOfInputs(hash, keys, inputs) == HashOfInputs(hash, keys', inputs)
  {
    SortAscends(keys);
    SortAscends(keys');
    AscendingUnique(SortNames(keys), SortNames(keys'));
  }

  /**
   The hashed text: a line `name:hash of the tensor's bytes` for each name, in the one ascending order, joined by line
   breaks.
   */
  lemma TextIsLines(
      hash: Hash, keys: seq<string>, inputs: map<string, Tensor>, sorted: seq<string>, lines: seq<string>)
    requires Inputs(inputs) && KeysOf(keys, inputs) && KeysOf(sorted, inputs) && Ascends(sorted)
    requires |lines| == |sorted| && forall k :: 0 <= k < |lines| ==>
      lines[k] == sorted[k] + ":" + hash(TensorBytes(inputs[sorted[k]]))
    ensures InputText(hash, keys, inputs) == Join(lines, '\n')
  {
    SortAscends(keys);
    AscendingUnique(SortNames(keys), sorted);
    LinesAre(hash, inputs, Digests(hash, inputs), sorted, lines);
  }

  lemma LinesAre(
      hash: Hash, inputs: map<string, Tensor>, d: map<string, string>, sorted: seq<string>, lines: seq<string>)
    requires Inputs(inputs) && d == Digests(hash, inputs) && forall x :: x in sorted ==> x in inputs
    requires |lines| == |sorted| && forall k :: 0 <= k < |lines| ==>
      lines[k] == sorted[k] + ":" + hash(TensorBytes(inputs[sorted[k]]))
    ensures Lines(sorted, d) == lines
  {
    forall k | 0 <= k < |lines| ensures Lines(sorted, d)[k] == lines[k] {
      assert sorted[k] in sorted;
      assert d[sorted[k]] == hash(TensorBytes(inputs[sorted[k]]));
    }
  }

  /** No name holds a line break. */
  ghost predicate PlainNames(keys: seq<string>) { forall x :: x in keys ==> Free(x, '\n') }

  lemma LinesAreFields(names: seq<string>, d: map<string, string>)
    requires PlainNames(names) && forall x :: x in names ==> x in d && IsHash(d[x])
    ensures forall k :: 0 <= k < |names| ==> JoinField(Lines(names, d)[k], '\n')
  {
    forall k | 0 <= k < |names| ensures JoinField(Lines(names, d)[k], '\n') { assert names[k] in names; }
  }

  lemma LinesBind(xs: seq<string>, ys: seq<string>, d: map<string, string>, e: map<string, string>)
    requires (forall x :: x in xs ==> x in d && IsHash(d[x])) && forall y :: y in ys ==> y in e && IsHash(e[y])
    requires PlainNames(xs) && PlainNames(ys) && Join(Lines(xs, d), '\n') == Join(Lines(ys, e), '\n')
    ensures xs == ys && forall x :: x in xs ==> d[x] == e[x]
  {
    LinesAreFields(xs, d);
    LinesAreFields(ys, e);
    JoinInjective(Lines(xs, d), Lines(ys, e), '\n');
    assert |xs| == |Lines(xs, d)| == |ys|;
    forall k | 0 <= k < |xs| ensures xs[k] == ys[k] && d[xs[k]] == e[ys[k]] {
      assert Lines(xs, d)[k] == Lines(ys, e)[k];
      SplitLast(xs[k], ys[k], ':', d[xs[k]], e[ys[k]]);
    }
  }

  lemma TextsBind(keys: seq<string>, keys': seq<string>, d: map<string, string>, e: map<string, string>)
    requires (forall x :: x in d ==> IsHash(d[x])) && forall x :: x in e ==> IsHash(e[x])
    requires KeysOf(keys, d) && KeysOf(keys', e) && PlainNames(keys) && PlainNames(keys')
    requires LinesText(keys, d) == LinesText(keys', e)
    ensures d == e
  {
    LinesBind(SortNames(keys), SortNames(keys'), d, e);
    forall x ensures x in d <==> x in e { assert x in keys <==> x in SortNames(keys); }
  }

  lemma DigestsBind(hash: Hash, a: map<string, Tensor>, b: map<string, Tensor>, ts: set<Tensor>, x: string)
    requires Inputs(a) && Inputs(b) && Digests(hash, a) == Digests(hash, b)
    requires NoCollision(hash, ts) && (x in a ==> a[x] in ts) && (x in b ==> b[x] in ts)
    ensures (x in a <==> x in b) && (x in a ==> a[x] == b[x])
  {
    assert x in a <==> x in Digests(hash, a);
    assert x in b <==> x in Digests(hash, b);
    if x in a {
      assert Digests(hash, a)[x] == Digests(hash, b)[x];
      SameHashSameTensor(hash, ts, a[x], b[x]);
    }
  }

  /** Two records with the same input hash are the same, unless two of the texts or tensors they hash collide. */
  lemma InputHashBinds(
    hash: Hash, keys: seq<string>, keys': seq<string>, a: map<string, Tensor>, b: map<string, Tensor>)
    requires forall q :: IsHash(hash(q))
    requires Inputs(a) && Inputs(b) && KeysOf(keys, a) && KeysOf(keys', b) && PlainNames(keys) && PlainNames(keys')
    requires CollisionFree(hash, {InputText(hash, keys, a), InputText(hash, keys', b)})
    requires NoCollision(hash, a.Values + b.Values) && HashOfInputs(hash, keys, a) == HashOfInputs(hash, keys', b)
    ensures a == b
  {
    DigestsAreHashes(hash, a);
    DigestsAreHashes(hash, b);
    TextsBind(keys, keys', Digests(hash, a), Digests(hash, b));
    SameDigests(hash, a, b, a.Values + b.Values);
  }

  lemma DigestsAreHashes(hash: Hash, a: map<string, Tensor>)
    requires Inputs(a) && forall q :: IsHash(hash(q))
    ensures forall x :: x in Digests(hash, a) ==> IsHash(Digests(hash, a)[x])
  {
  }

  lemma SameDigests(hash: Hash, a: map<string, Tensor>, b: map<string, Tensor>, ts: set<Tensor>)
    requires Inputs(a) && Inputs(b) && Digests(hash, a) == Digests(hash, b) && NoCollision(hash, ts)
    requires (forall x :: x in a ==> a[x] in ts) && forall x :: x in b ==> b[x] in ts
    ensures a == b
  {
    forall x: string ensures (x in a <==> x in b) && (x in a ==> a[x] == b[x]) { DigestsBind(hash, a, b, ts, x); }
  }

  /** The names of a job's inputs hold no line break. */
  lemma JobNamesPlain(n: Name)
    ensures Free(Chain.NameText(n), '\n')
  {
    if n.block.Some? { Chain.DigitsFree(Decimal(n.block.value), '\n'); }
  }

  /** With line breaks in names one record can pass for another, whatever the hash: `a` and `b`, or one long name. */
  lemma LineBreaksCollide(hash: Hash, t: Tensor, u: Tensor)
    requires ValidTensor(t) && ValidTensor(u)
    ensures var long := Line("a", TensorHash(hash, t)) + ['\n'] + "b";
      InputText(hash, ["a", "b"], map["a" := t, "b" := u]) == InputText(hash, [long], map[long := u])
  {
    var long := Line("a", TensorHash(hash, t)) + ['\n'] + "b";
    var x, y := TensorHash(hash, t), TensorHash(hash, u);
    DigestsOf(hash, "a", "b", t, u);
    DigestsOf(hash, long, long, u, u);
    assert map[long := u, long := u] == map[long := u] && map[long := y, long := y] == map[long := y];
    TwoLines(x, y, long);
  }

  lemma DigestsOf(hash: Hash, a: string, b: string, t: Tensor, u: Tensor)
    requires ValidTensor(t) && ValidTensor(u)
    ensures Digests(hash, map[a := t, b := u]) == map[a := TensorHash(hash, t), b := TensorHash(hash, u)]
  {
  }

  lemma TwoLines(x: string, y: string, long: string)
    requires long == Line("a", x) + ['\n'] + "b"
    ensures LinesText(["a", "b"], map["a" := x, "b" := y]) == LinesText([long], map[long := y])
  {
    assert SortNames(["b"]) == Insert("b", []) == ["b"];
    assert SortNames(["a", "b"]) == Insert("a", ["b"]) == ["a", "b"];
    assert SortNames([long]) == Insert(long, []) == [long];
    assert Lines(["a", "b"], map["a" := x, "b" := y]) == [Line("a", x), Line("b", y)];
    assert Lines([long], map[long := y]) == [Line(long, y)];
    assert [Line("a", x), Line("b", y)][1..] == [Line("b", y)];
    assert Join([Line("b", y)], '\n') == Line("b", y);
    assert Join([Line(long, y)], '\n') == Line(long, y);
    assert Line(long, y) == Line("a", x) + ['\n'] + Line("b", y);
  }
}
