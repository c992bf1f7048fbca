/**
 The assigned proof-of-useful-work job (pouw/src/cupow.ts and pouw/src/workload-bridge.ts):
 signed integers enter the field, low-rank noise is added, the noisy product is taken block by
 block, the noise is removed through its thin factors, and the residues are lifted back.
 */
module Cupow {
  import opened Sums
  import opened Field
  import opened Matrices
  import opened BlockProduct

  /**
   The deterministic generator seeded by (sigma, label): its k-th draw, `floor(rng() * p)`. The
   results below hold for every such function.
   */
  type Draws = (string, string, nat) -> nat

  /** First divisor of `n` at or above the starting value, or `n` (`start` is `max(4, floor(n^0.3))`). */
  method ChooseBlockSize(n: nat, start: nat) returns (r: nat)
    requires n >= 1 && start >= 1
    ensures 1 <= r <= n && n % r == 0
    ensures forall d :: start <= d < r ==> n % d != 0
    ensures start <= n ==> start <= r
  {
    r := start;
    while n % r != 0 && r <= n
      invariant r >= start && (start <= n ==> r <= n)
      invariant forall d :: start <= d < r ==> n % d != 0
      decreases n - r
    {
      r := r + 1;
    }
    if r > n { r := n; }
  }

  method MatRandom(rows: nat, cols: nat, draws: Draws, sigma: string, lab: string, from: nat) returns (m: Matrix)
    ensures Valid(m) && InField(m) && m.rows == rows && m.cols == cols
    ensures forall t :: 0 <= t < |m.data| ==> m.data[t] == draws(sigma, lab, from + t) % P
  {
    var data := MatCreate(rows, cols);
    for t := 0 to data.Length
      invariant forall u :: 0 <= u < t ==> data[u] == draws(sigma, lab, from + u) % P
    {
      data[t] := draws(sigma, lab, from + t) % P;
    }
    m := Matrix(rows, cols, data[..]);
  }

  predicate Thin(m: Matrix, rows: nat, cols: nat) { Valid(m) && InField(m) && m.rows == rows && m.cols == cols }

  /** `m` is a matrix of field elements whose entries are congruent to those of `f`. */
  ghost predicate Reduces(m: Matrix, rows: nat, cols: nat, f: Mx) {
    Thin(m, rows, cols) && CongMx(rows, cols, View(m), f)
  }

  lemma ReducesExact(m: Matrix, rows: nat, cols: nat, f: Mx, i: int, j: int)
    requires Reduces(m, rows, cols, f) && 0 <= i < rows && 0 <= j < cols
    ensures At(m, i, j) == f(i, j) % P
  {
    InFieldAt(m, i, j);
    assert Cong(View(m)(i, j), f(i, j));
  }

  /** The product of reduced matrices is the reduced product. */
  method MulReduced(a: Matrix, b: Matrix, m: nat, n: nat, q: nat, ghost fa: Mx, ghost fb: Mx) returns (c: Matrix)
    requires Reduces(a, m, n, fa) && Reduces(b, n, q, fb)
    ensures Reduces(c, m, q, Prod(n, fa, fb))
    ensures forall i, j :: 0 <= i < m && 0 <= j < q ==> At(c, i, j) == Dot(a, b, i, j, n) % P
  {
    c := MatMul(a, b);
    DotReduces(c, a, b, m, n, q, fa, fb);
  }

  lemma DotReduces(c: Matrix, a: Matrix, b: Matrix, m: nat, n: nat, q: nat, fa: Mx, fb: Mx)
    requires Reduces(a, m, n, fa) && Reduces(b, n, q, fb) && Thin(c, m, q)
    requires forall i, j :: 0 <= i < m && 0 <= j < q ==> At(c, i, j) == Dot(a, b, i, j, n) % P
    ensures Reduces(c, m, q, Prod(n, fa, fb))
  {
    ProdCong(m, n, q, View(a), fa, View(b), fb);
    forall i, j | 0 <= i < m && 0 <= j < q ensures Cong(View(c)(i, j), Prod(n, fa, fb)(i, j)) {
      DotIsSum(a, b, i, j, n);
      assert Cong(Prod(n, View(a), View(b))(i, j), Prod(n, fa, fb)(i, j));
    }
  }

  lemma ReducesSelf(m: Matrix, rows: nat, cols: nat)
    requires Thin(m, rows, cols)
    ensures Reduces(m, rows, cols, View(m))
  {
  }

  lemma CongAdd(x: int, x': int, y: int, y': int)
    requires Cong(x, x') && Cong(y, y')
    ensures Cong((x + y) % P, x' + y') && Cong((x - y) % P, x' - y')
  {
  }

  lemma AddReduces(c: Matrix, a: Matrix, b: Matrix, n: nat, fa: Mx, fb: Mx)
    requires Reduces(a, n, n, fa) && Reduces(b, n, n, fb) && Thin(c, n, n)
    requires forall i, j :: 0 <= i < n && 0 <= j < n ==> At(c, i, j) == (At(a, i, j) + At(b, i, j)) % P
    ensures Reduces(c, n, n, Plus(fa, fb))
  {
    forall i, j | 0 <= i < n && 0 <= j < n ensures Cong(View(c)(i, j), Plus(fa, fb)(i, j)) {
      CongAdd(View(a)(i, j), fa(i, j), View(b)(i, j), fb(i, j));
    }
  }

  function Minus(a: Mx, b: Mx): Mx { (i, j) => a(i, j) - b(i, j) }

  lemma SubReduces(c: Matrix, a: Matrix, b: Matrix, n: nat, fa: Mx, fb: Mx)
    requires Reduces(a, n, n, fa) && Reduces(b, n, n, fb) && Thin(c, n, n)
    requires forall i, j :: 0 <= i < n && 0 <= j < n ==> At(c, i, j) == (At(a, i, j) - At(b, i, j)) % P
    ensures Reduces(c, n, n, Minus(fa, fb))
  {
    forall i, j | 0 <= i < n && 0 <= j < n ensures Cong(View(c)(i, j), Minus(fa, fb)(i, j)) {
      CongAdd(View(a)(i, j), fa(i, j), View(b)(i, j), fb(i, j));
    }
  }

  /** The thin factors are the generator's draws in order: `el` first, then `er`. */
  predicate Drawn(el: Matrix, er: Matrix, draws: Draws, sigma: string, lab: string) {
    && (forall t :: 0 <= t < |el.data| ==> el.data[t] == draws(sigma, lab, t) % P)
    && (forall t :: 0 <= t < |er.data| ==> er.data[t] == draws(sigma, lab, |el.data| + t) % P)
  }

  method GenerateLowRankNoise(
      draws: Draws, sigma: string, lab: string, n: nat, r: nat) returns (el: Matrix, er: Matrix, e: Matrix)
    ensures Thin(el, n, r) && Thin(er, r, n)
    ensures Drawn(el, er, draws, sigma, lab)
    ensures Reduces(e, n, n, Prod(r, View(el), View(er)))
  {
    el := MatRandom(n, r, draws, sigma, lab, 0);
    er := MatRandom(r, n, draws, sigma, lab, n * r);
    e := MulReduced(el, er, n, r, n, View(el), View(er));
  }

  /** A noisy copy of `a`: `a + el·er` in the field. */
  ghost predicate Noisy(a': Matrix, a: Matrix, el: Matrix, er: Matrix, n: nat, r: nat) {
    Thin(el, n, r) && Thin(er, r, n) && Reduces(a', n, n, Plus(View(a), Prod(r, View(el), View(er))))
  }

  method AddNoise(
      a: Matrix, draws: Draws, sigma: string, lab: string, n: nat, r: nat) returns (a': Matrix, el: Matrix, er: Matrix)
    requires Square(a, n)
    ensures Noisy(a', a, el, er, n, r)
    ensures Drawn(el, er, draws, sigma, lab)
  {
    var e;
    el, er, e := GenerateLowRankNoise(draws, sigma, lab, n, r);
    a' := MatAdd(a, e);
    ReducesSelf(a, n, n);
    AddReduces(a', a, e, n, View(a), Prod(r, View(el), View(er)));
  }

  datatype Encoding = Encoding(a': Matrix, b': Matrix, el: Matrix, er: Matrix, fl: Matrix, fr: Matrix)

  ghost predicate Encodes(enc: Encoding, a: Matrix, b: Matrix, n: nat, r: nat) {
    Noisy(enc.a', a, enc.el, enc.er, n, r) && Noisy(enc.b', b, enc.fl, enc.fr, n, r)
  }

  method Encode(draws: Draws, sigma: string, a: Matrix, b: Matrix, n: nat, r: nat) returns (enc: Encoding)
    requires Square(a, n) && Square(b, n)
    ensures Encodes(enc, a, b, n, r)
    ensures Drawn(enc.el, enc.er, draws, sigma, "noise_E") && Drawn(enc.fl, enc.fr, draws, sigma, "noise_F")
  {
    var a', el, er := AddNoise(a, draws, sigma, "noise_E", n, r);
    var b', fl, fr := AddNoise(b, draws, sigma, "noise_F", n, r);
    enc := Encoding(a', b', el, er, fl, fr);
  }

  lemma ProdSame(n: nat, a: Mx, b: Mx, b': Mx, i: int, j: int)
    requires forall k :: 0 <= k < n ==> b(k, j) == b'(k, j)
    ensures Prod(n, a, b)(i, j) == Prod(n, a, b')(i, j)
  {
    SumEq(n, k => a(i, k) * b(k, j), k => a(i, k) * b'(k, j));
  }

  /** The three correction terms, taken through the thin factors, are exactly what the noise added. */
  lemma DecodeAlgebra(n: nat, r: nat, a: Mx, b: Mx, el: Mx, er: Mx, fl: Mx, fr: Mx, i: int, j: int)
    ensures Prod(n, Plus(a, Prod(r, el, er)), Plus(b, Prod(r, fl, fr)))(i, j)
            - Prod(r, Prod(n, a, fl), fr)(i, j)
            - Prod(r, el, Prod(n, er, b))(i, j)
            - Prod(r, Prod(r, el, Prod(n, er, fl)), fr)(i, j)
         == Prod(n, a, b)(i, j)
  {
    var e := Prod(r, el, er);
    var f := Prod(r, fl, fr);
    ProdPlusLeft(n, a, e, Plus(b, f), i, j);
    ProdPlusRight(n, a, b, f, i, j);
    ProdPlusRight(n, e, b, f, i, j);
    ProdAssoc(n, r, a, fl, fr, i, j);
    ProdAssoc(r, n, el, er, b, i, j);
    ProdAssoc(r, n, el, er, f, i, j);
    ProdAssoc(r, r, el, Prod(n, er, fl), fr, i, j);
    forall t ensures Prod(r, Prod(n, er, fl), fr)(t, j) == Prod(n, er, f)(t, j) { ProdAssoc(n, r, er, fl, fr, t, j); }
    ProdSame(r, el, Prod(r, Prod(n, er, fl), fr), Prod(n, er, f), i, j);
  }

  method Decode(a: Matrix, b: Matrix, c': Matrix, enc: Encoding, n: nat, r: nat) returns (c: Matrix)
    requires Square(a, n) && Square(b, n) && Encodes(enc, a, b, n, r)
    requires Reduces(c', n, n,
      Prod(n, Plus(View(a), Prod(r, View(enc.el), View(enc.er))), Plus(View(b), Prod(r, View(enc.fl), View(enc.fr)))))
    ensures Reduces(c, n, n, Prod(n, View(a), View(b)))
  {
    ghost var va, vb := View(a), View(b);
    ghost var el, er, fl, fr := View(enc.el), View(enc.er), View(enc.fl), View(enc.fr);
    var afl := MulReduced(a, enc.fl, n, n, r, va, fl);
    var af := MulReduced(afl, enc.fr, n, r, n, Prod(n, va, fl), fr);
    var erb := MulReduced(enc.er, b, r, n, n, er, vb);
    var eb := MulReduced(enc.el, erb, n, r, n, el, Prod(n, er, vb));
    var erfl := MulReduced(enc.er, enc.fl, r, n, r, er, fl);
    var elerfl := MulReduced(enc.el, erfl, n, r, r, el, Prod(n, er, fl));
    var ef := MulReduced(elerfl, enc.fr, n, r, n, Prod(r, el, Prod(n, er, fl)), fr);
    c := Subtract(c', af, eb, ef, n, Prod(n, Plus(va, Prod(r, el, er)), Plus(vb, Prod(r, fl, fr))),
                  Prod(r, Prod(n, va, fl), fr), Prod(r, el, Prod(n, er, vb)),
                    Prod(r, Prod(r, el, Prod(n, er, fl)), fr));
    DecodedReduces(c, n, r, va, vb, el, er, fl, fr);
  }

  /** `matSub(matSub(matSub(w, x), y), z)`. */
  method Subtract(
      w: Matrix, x: Matrix, y: Matrix, z: Matrix, n: nat, ghost fw: Mx, ghost fx: Mx, ghost fy: Mx, ghost fz: Mx)
      returns (c: Matrix)
    requires Reduces(w, n, n, fw) && Reduces(x, n, n, fx) && Reduces(y, n, n, fy) && Reduces(z, n, n, fz)
    ensures Reduces(c, n, n, Minus(Minus(Minus(fw, fx), fy), fz))
  {
    var c1 := MatSub(w, x);
    SubReduces(c1, w, x, n, fw, fx);
    var c2 := MatSub(c1, y);
    SubReduces(c2, c1, y, n, Minus(fw, fx), fy);
    c := MatSub(c2, z);
    SubReduces(c, c2, z, n, Minus(Minus(fw, fx), fy), fz);
  }

  lemma DecodedReduces(c: Matrix, n: nat, r: nat, a: Mx, b: Mx, el: Mx, er: Mx, fl: Mx, fr: Mx)
    requires Reduces(c, n, n, Minus(Minus(Minus(Prod(n, Plus(a, Prod(r, el, er)), Plus(b, Prod(r, fl, fr))),
                                                Prod(r, Prod(n, a, fl), fr)), Prod(r, el, Prod(n, er, b))),
                                    Prod(r, Prod(r, el, Prod(n, er, fl)), fr)))
    ensures Reduces(c, n, n, Prod(n, a, b))
  {
    var f := Minus(Minus(Minus(Prod(n, Plus(a, Prod(r, el, er)), Plus(b, Prod(r, fl, fr))),
                               Prod(r, Prod(n, a, fl), fr)), Prod(r, el, Prod(n, er, b))),
                   Prod(r, Prod(r, el, Prod(n, er, fl)), fr));
    forall i, j | 0 <= i < n && 0 <= j < n ensures Cong(View(c)(i, j), Prod(n, a, b)(i, j)) {
      assert Cong(View(c)(i, j), f(i, j));
      DecodeAlgebra(n, r, a, b, el, er, fl, fr, i, j);
    }
  }

  /**
   One pass over the job's field matrices: the decoded product, and what the certificate's transcript is hashed from.
   */
  method SolveAssigned(draws: Draws, sigma: string, a: Matrix, b: Matrix, n: nat, start: nat)
    returns (c: Matrix, r: nat, enc: Encoding, transcript: seq<Matrix>)
    requires n >= 1 && start >= 1 && Square(a, n) && Square(b, n)
    ensures Reduces(c, n, n, Prod(n, View(a), View(b)))
    ensures 1 <= r <= n && n % r == 0
    ensures Encodes(enc, a, b, n, r)
    ensures Drawn(enc.el, enc.er, draws, sigma, "noise_E") && Drawn(enc.fl, enc.fr, draws, sigma, "noise_F")
    ensures var nb := n / r;
      && |transcript| == nb * nb * nb
      && forall i: nat, j: nat :: i < nb && j < nb ==> Recorded(transcript, enc.a', enc.b', r, nb, i, j)
  {
    r := ChooseBlockSize(n, start);
    enc := Encode(draws, sigma, a, b, n, r);
    var out := MatMulWithTranscript(enc.a', enc.b', r, n);
    DotReduces(out.c, enc.a', enc.b', n, n, n, Plus(View(a), Prod(r, View(enc.el), View(enc.er))),
               Plus(View(b), Prod(r, View(enc.fl), View(enc.fr))));
    c := Decode(a, b, out.c, enc, n, r);
    transcript := out.transcript;
  }

  /** `floor(sqrt(HALF_P / n))`: the largest `s` with `n * s^2 <= HALF_P`. */
  function MaxAbsEntry(n: nat): (s: nat)
    requires n >= 1
    ensures n * (s * s) <= HALF_P < n * ((s + 1) * (s + 1))
  {
    RootBelow(n);
    LargestBelow(n, HALF_P)
  }

  lemma RootBelow(n: nat)
    requires n >= 1
    ensures HALF_P < n * ((HALF_P + 1) * (HALF_P + 1))
  {
    var q := (HALF_P + 1) * (HALF_P + 1);
    assert q > HALF_P;
    assert n * q >= q;
  }

  /** The search behind `MaxAbsEntry`: largest `s <= top` with `n * s^2 <= HALF_P`. */
  function LargestBelow(n: nat, top: nat): (s: nat)
    requires n >= 1 && HALF_P < n * ((top + 1) * (top + 1))
    ensures n * (s * s) <= HALF_P < n * ((s + 1) * (s + 1))
  {
    if n * (top * top) <= HALF_P then top else LargestBelow(n, top - 1)
  }

  datatype Lifted = NotExact | Answer(result: seq<int>)

  /** Some entry is outside the exactness bound for dimension `n`. */
  predicate Exceeds(m: seq<int>, bound: nat) { exists t :: 0 <= t < |m| && !(-(bound as int) <= m[t] <= bound) }

  /** Field form of the user's signed matrix, or a refusal (the source throws). */
  method ToField(data: seq<int>, n: nat, bound: nat) returns (ok: bool, m: Matrix)
    requires |data| == n * n
    ensures ok <==> !Exceeds(data, bound)
    ensures ok ==> Reduces(m, n, n, View(Matrix(n, n, data)))
  {
    var out := MatCreate(n, n);
    for t := 0 to |data|
      invariant forall u :: 0 <= u < t ==> -(bound as int) <= data[u] <= bound && out[u] == data[u] % P
    {
      if data[t] > bound || -data[t] > bound {
        return false, Matrix(0, 0, []);
      }
      out[t] := ModP(data[t]);
    }
    m := Matrix(n, n, out[..]);
    ok := true;
    ResiduesReduce(m, data, n);
  }

  lemma ResiduesReduce(m: Matrix, data: seq<int>, n: nat)
    requires Valid(m) && m.rows == m.cols == n && |data| == n * n
    requires forall t :: 0 <= t < |data| ==> m.data[t] == data[t] % P
    ensures Reduces(m, n, n, View(Matrix(n, n, data)))
  {
    IxFacts(n, n);
    forall i, j | 0 <= i < n && 0 <= j < n ensures Cong(View(m)(i, j), View(Matrix(n, n, data))(i, j)) {
      var t := Ix(i, j, n);
      assert m.data[t] == data[t] % P;
    }
  }

  /** Centred lift of a residue. */
  function LiftSigned(v: int): (x: int)
    ensures 0 <= v < P ==> -HALF_P <= x <= HALF_P && x % P == v
  {
    if v > HALF_P then v - P else v
  }

  /** An integer survives reduction and lift exactly when it is within `HALF_P` of zero. */
  lemma LiftExactIff(x: int)
    ensures LiftSigned(x % P) == x <==> -HALF_P <= x <= HALF_P
  {
  }

  lemma SquareBound(s: int, x: int, y: int)
    requires -s <= x <= s && -s <= y <= s
    ensures -(s * s) <= x * y <= s * s
  {
    assert (s - x) * (s + y) >= 0 && (s + x) * (s - y) >= 0;
    assert (s - x) * (s - y) >= 0 && (s + x) * (s + y) >= 0;
    ExpandSquares(s, x, y);
  }

  lemma ExpandSquares(s: int, x: int, y: int)
    ensures (s - x) * (s + y) + (s + x) * (s - y) == 2 * (s * s) - 2 * (x * y)
    ensures (s - x) * (s - y) + (s + x) * (s + y) == 2 * (s * s) + 2 * (x * y)
  {
  }

  /** Within the bound no inner product leaves the lift's range. */
  lemma DotWithinLift(n: nat, a: seq<int>, b: seq<int>, i: int, j: int)
    requires n >= 1 && |a| == |b| == n * n && 0 <= i < n && 0 <= j < n
    requires !Exceeds(a, MaxAbsEntry(n)) && !Exceeds(b, MaxAbsEntry(n))
    ensures -HALF_P <= Prod(n, View(Matrix(n, n, a)), View(Matrix(n, n, b)))(i, j) <= HALF_P
  {
    var s := MaxAbsEntry(n);
    var va, vb := View(Matrix(n, n, a)), View(Matrix(n, n, b));
    IxFacts(n, n);
    forall k | 0 <= k < n ensures -((s * s) as int) <= va(i, k) * vb(k, j) <= s * s {
      assert -(s as int) <= a[Ix(i, k, n)] <= s;
      assert -(s as int) <= b[Ix(k, j, n)] <= s;
      SquareBound(s, va(i, k), vb(k, j));
    }
    SumBound(n, k => va(i, k) * vb(k, j), s * s);
  }

  /**
   The whole job. It is refused exactly when an entry is outside the bound; otherwise the answer
   is the integer product of the user's matrices, entry for entry, whatever the noise.
   */
  method SolveAssignedJob(
      draws: Draws, sigma: string, a: seq<int>, b: seq<int>, n: nat, start: nat) returns (out: Lifted)
    requires n >= 1 && start >= 1 && |a| == |b| == n * n
    ensures out.NotExact? <==> Exceeds(a, MaxAbsEntry(n)) || Exceeds(b, MaxAbsEntry(n))
    ensures out.Answer? ==> |out.result| == n * n
    ensures out.Answer? ==> forall i, j :: 0 <= i < n && 0 <= j < n ==>
      At(Matrix(n, n, out.result), i, j) == Prod(n, View(Matrix(n, n, a)), View(Matrix(n, n, b)))(i, j)
  {
    var okA, fa := ToField(a, n, MaxAbsEntry(n));
    if !okA { return NotExact; }
    var okB, fb := ToField(b, n, MaxAbsEntry(n));
    if !okB { return NotExact; }
    var c, r, enc, transcript := SolveAssigned(draws, sigma, fa, fb, n, start);
    var result := seq(|c.data|, t requires 0 <= t < |c.data| => LiftSigned(c.data[t]));
    out := Answer(result);
    LiftedProduct(c, fa, fb, a, b, n, result);
  }

  lemma LiftedProduct(c: Matrix, fa: Matrix, fb: Matrix, a: seq<int>, b: seq<int>, n: nat, result: seq<int>)
    requires n >= 1 && |a| == |b| == n * n
    requires !Exceeds(a, MaxAbsEntry(n)) && !Exceeds(b, MaxAbsEntry(n))
    requires Reduces(fa, n, n, View(Matrix(n, n, a))) && Reduces(fb, n, n, View(Matrix(n, n, b)))
    requires Reduces(c, n, n, Prod(n, View(fa), View(fb)))
    requires |result| == |c.data| && forall t :: 0 <= t < |c.data| ==> result[t] == LiftSigned(c.data[t])
    ensures forall i, j :: 0 <= i < n && 0 <= j < n ==>
      At(Matrix(n, n, result), i, j) == Prod(n, View(Matrix(n, n, a)), View(Matrix(n, n, b)))(i, j)
  {
    var va, vb := View(Matrix(n, n, a)), View(Matrix(n, n, b));
    ProdCong(n, n, n, View(fa), va, View(fb), vb);
    forall i, j | 0 <= i < n && 0 <= j < n ensures At(Matrix(n, n, result), i, j) == Prod(n, va, vb)(i, j) {
      ReducesExact(c, n, n, Prod(n, View(fa), View(fb)), i, j);
      assert Cong(Prod(n, View(fa), View(fb))(i, j), Prod(n, va, vb)(i, j));
      CongIffSameResidue(Prod(n, View(fa), View(fb))(i, j), Prod(n, va, vb)(i, j));
      DotWithinLift(n, a, b, i, j);
      LiftExactIff(Prod(n, va, vb)(i, j));
      LiftedEntry(c, n, result, i, j);
    }
  }

  lemma LiftedEntry(c: Matrix, n: nat, result: seq<int>, i: int, j: int)
    requires Thin(c, n, n) && 0 <= i < n && 0 <= j < n
    requires |result| == |c.data| && forall t :: 0 <= t < |c.data| ==> result[t] == LiftSigned(c.data[t])
    ensures At(Matrix(n, n, result), i, j) == LiftSigned(At(c, i, j))
  {
    IxFacts(n, n);
  }

  /** The bound is the best possible: one more, and the all-equal matrices no longer lift back. */
  lemma BoundIsTight(n: nat)
    requires n >= 1
    ensures var s := MaxAbsEntry(n) + 1;
      var f: Mx := (i, j) => s;
      LiftSigned(Prod(n, f, f)(0, 0) % P) != Prod(n, f, f)(0, 0)
  {
    var s := MaxAbsEntry(n) + 1;
    var f: Mx := (i, j) => s;
    SumConst(n, k => f(0, k) * f(k, 0), s * s);
    LiftExactIff(n * (s * s));
  }

  lemma {:induction false} SumConst(n: nat, f: int -> int, c: int)
    requires forall k :: 0 <= k < n ==> f(k) == c
    ensures Sum(n, f) == n * c
  {
    if n > 0 {
      SumConst(n - 1, f, c);
      assert n * c == (n - 1) * c + c;
    }
  }
}
