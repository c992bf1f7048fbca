/**
 Freivalds' check of a rectangular product (pouw/src/freivalds.ts). `Dbl` marks every operation
 the source performs on doubles: its precondition is that the exact result is at most 2^53 in
 size, so a verified body computes without rounding.
 */
module Freivalds {
  import opened Sums
  import opened Field
  import opened Matrices

  const MAX_EXACT: int := 0x20_0000_0000_0000
  const SMALL: int := 0x40_0000
  const SPLIT: int := 32768
  const ENTRY_LIMIT: int := 0x8000_0000

  /** The exact value of a double operation. */
  function Dbl(x: int): int
    requires -MAX_EXACT <= x <= MAX_EXACT
  {
    x
  }

  lemma MulBound(x: int, y: int, lx: int, ly: int)
    requires -lx <= x <= lx && 0 <= y <= ly
    ensures -(lx * ly) <= x * y <= lx * ly
  {
    assert (lx - x) * y >= 0 && (lx + x) * y >= 0;
    assert lx * (ly - y) >= 0;
    MulBoundExpand(x, y, lx, ly);
  }

  lemma MulBoundExpand(x: int, y: int, lx: int, ly: int)
    ensures (lx - x) * y == lx * y - x * y && (lx + x) * y == lx * y + x * y && lx * (ly - y) == lx * ly - lx * y
  {
  }

  /** `a·r mod p` without leaving the exact range: large entries are multiplied in two parts. */
  function MulModN(a: int, r: int): (z: int)
    requires -ENTRY_LIMIT < a < ENTRY_LIMIT && 0 <= r < P
    ensures -P < z < P && Cong(z, a * r)
  {
    if -SMALL < a < SMALL then MulBound(a, r, SMALL, P); RemShift(a * r); Rem(Dbl(a * r))
    else
      SplitBounds(r); RemShift(a); CongShift(Rem(a), a, 0);
      var hi := r / SPLIT;
      SplitMulMod(a, Rem(a), r, hi, Dbl(r - Dbl(hi * SPLIT)))
  }

  lemma SplitBounds(r: int)
    requires 0 <= r < P
    ensures 0 <= r / SPLIT < SPLIT && 0 <= r / SPLIT * SPLIT <= r && 0 <= r - r / SPLIT * SPLIT < SPLIT
  {
  }

  /** The case of a large entry `a`, with `x = a % p` and `r = hi * 2^15 + lo`. */
  function SplitMulMod(a: int, x: int, r: int, hi: int, lo: int): (z: int)
    requires Cong(a, x) && -P < x < P && r == hi * SPLIT + lo && 0 <= hi < SPLIT && 0 <= lo < SPLIT
    ensures -P < z < P && Cong(z, a * r)
  {
    MulBound(x, hi, P, SPLIT);
    MulBound(x, lo, P, SPLIT);
    SplitCong(a, x, r, hi, lo);
    var y := Dbl(Dbl(Rem(Dbl(x * hi)) * SPLIT) + Dbl(x * lo));
    RemCong(y, a * r);
    Rem(y)
  }

  lemma RemCong(x: int, y: int)
    requires Cong(x, y)
    ensures Cong(Rem(x), y)
  {
  }

  lemma RemShift(x: int)
    ensures Cong(Rem(x), x) && Cong(SPLIT, SPLIT)
  {
    CongShift(x, Rem(x), 0);
  }

  lemma SplitCong(a: int, x: int, r: int, hi: int, lo: int)
    requires Cong(a, x) && r == hi * SPLIT + lo
    ensures Cong(Rem(x * hi) * SPLIT + x * lo, a * r)
  {
    var h := Rem(x * hi);
    RemShift(x * hi);
    CongMul(h, x * hi, SPLIT, SPLIT);
    CongShift(h * SPLIT, x * hi * SPLIT, x * lo);
    SplitMul(x, hi, lo);
    CongMul(a, x, r, r);
    CongShift(a * r, x * r, 0);
    CongTrans(h * SPLIT + x * lo, x * r, a * r);
  }

  lemma SplitMul(x: int, hi: int, lo: int)
    ensures x * (hi * SPLIT + lo) == x * hi * SPLIT + x * lo
  {
  }

  /** A vector as a function of its index; 0 outside. */
  function Vec(v: seq<int>): int -> int { k => if 0 <= k < |v| then v[k] else 0 }

  /** The exact matrix-vector product. */
  function Apply(cols: nat, m: Mx, v: int -> int): int -> int { i => Sum(cols, k => m(i, k) * v(k)) }

  predicate Bounded(m: seq<int>) { forall t :: 0 <= t < |m| ==> -ENTRY_LIMIT < m[t] < ENTRY_LIMIT }

  predicate FieldVector(v: seq<int>) { forall t :: 0 <= t < |v| ==> 0 <= v[t] < P }

  /** The double-precision product agrees with the exact one modulo `P`, for any number of columns. */
  method MatVecRect(m: seq<int>, v: seq<int>, rows: nat, cols: nat) returns (out: seq<int>)
    requires |m| == rows * cols && |v| == cols && Bounded(m) && FieldVector(v)
    ensures |out| == rows && FieldVector(out)
    ensures forall i :: 0 <= i < rows ==> out[i] == Apply(cols, View(Matrix(rows, cols, m)), Vec(v))(i) % P
  {
    ghost var f := View(Matrix(rows, cols, m));
    out := [];
    for i := 0 to rows
      invariant |out| == i && FieldVector(out)
      invariant forall i0 :: 0 <= i0 < i ==> out[i0] == Apply(cols, f, Vec(v))(i0) % P
    {
      var s := RowSum(m, v, rows, cols, i);
      Canonical(s, Apply(cols, f, Vec(v))(i));
      s := Rem(s);
      out := out + [if s < 0 then Dbl(s + P) else s];
    }
  }

  /** The remainder brought into `[0, P)` is the residue. */
  lemma Canonical(s: int, x: int)
    requires Cong(s, x)
    ensures var r := Rem(s); 0 <= (if r < 0 then r + P else r) < P && (if r < 0 then r + P else r) == x % P
  {
    RemCong(s, x);
    CongIffSameResidue(Rem(s), x);
  }

  /** The running sum of one row, reduced every 2^22 terms. */
  method RowSum(m: seq<int>, v: seq<int>, rows: nat, cols: nat, i: nat) returns (s: int)
    requires |m| == rows * cols && |v| == cols && Bounded(m) && FieldVector(v) && i < rows
    ensures Cong(s, Apply(cols, View(Matrix(rows, cols, m)), Vec(v))(i))
  {
    ghost var g := k => View(Matrix(rows, cols, m))(i, k) * Vec(v)(k);
    s := 0;
    for k := 0 to cols
      invariant Cong(s, Sum(k, g))
      invariant WithinBudget(s, k)
    {
      EntryAt(m, rows, cols, i, k);
      var z := Term(m[i * cols + k], v[k]);
      AddCong(s, Sum(k, g), z, g(k));
      s := NextSum(s, z, k, Sum(k + 1, g));
    }
  }

  /** After `k` terms, of which `k % 2^22` since the last reduction. */
  predicate WithinBudget(s: int, k: nat) { -((k % SMALL + 1) * P) <= s <= (k % SMALL + 1) * P }

  /** Adds a term and reduces when `k & 0x3fffff` is all ones. */
  function NextSum(s: int, z: int, k: nat, ghost total: int): (s': int)
    requires WithinBudget(s, k) && -P < z < P && Cong(s + z, total)
    ensures WithinBudget(s', k + 1) && Cong(s', total)
  {
    var t := Dbl(s + z);
    RemCong(t, total);
    if k % SMALL == SMALL - 1 then Rem(t) else t
  }

  /** The term added for one entry; a zero entry adds nothing. */
  function Term(a: int, r: int): (z: int)
    requires -ENTRY_LIMIT < a < ENTRY_LIMIT && 0 <= r < P
    ensures -P < z < P && Cong(z, a * r)
  {
    if a != 0 then MulModN(a, r) else 0
  }

  lemma AddCong(x: int, x': int, y: int, y': int)
    requires Cong(x, x') && Cong(y, y')
    ensures Cong(x + y, x' + y')
  {
  }

  lemma EntryAt(m: seq<int>, rows: nat, cols: nat, i: nat, k: nat)
    requires |m| == rows * cols && i < rows && k < cols
    ensures i * cols + k < |m| && View(Matrix(rows, cols, m))(i, k) == m[i * cols + k]
  {
    IxFacts(rows, cols);
    IxIsRowMajor(i, k, cols);
  }

  /** One round: `A·(B·r)` and `C·r` agree modulo `P`. */
  ghost predicate RoundPasses(a: Mx, b: Mx, c: Mx, m: nat, k: nat, n: nat, r: seq<int>) {
    forall i :: 0 <= i < m ==> Cong(Apply(n, Prod(k, a, b), Vec(r))(i), Apply(n, c, Vec(r))(i))
  }

  lemma ApplyCong(cols: nat, f: Mx, v: int -> int, w: int -> int, i: int)
    requires forall t :: 0 <= t < cols ==> Cong(v(t), w(t))
    ensures Cong(Apply(cols, f, v)(i), Apply(cols, f, w)(i))
  {
    forall t | 0 <= t < cols ensures Cong(f(i, t) * v(t), f(i, t) * w(t)) { CongMul(f(i, t), f(i, t), v(t), w(t)); }
    SumCong(cols, t => f(i, t) * v(t), t => f(i, t) * w(t));
  }

  /** `(A·B)·r = A·(B·r)`. */
  lemma ApplyAssoc(k: nat, n: nat, a: Mx, b: Mx, v: int -> int, i: int)
    ensures Apply(n, Prod(k, a, b), v)(i) == Apply(k, a, Apply(n, b, v))(i)
  {
    var col: Mx := (t, _) => v(t);
    ProdAssoc(k, n, a, b, col, i, 0);
    SumEq(n, t => Prod(k, a, b)(i, t) * v(t), t => Prod(k, a, b)(i, t) * col(t, 0));
    forall t ensures Prod(n, b, col)(t, 0) == Apply(n, b, v)(t) {
      SumEq(n, u => b(t, u) * col(u, 0), u => b(t, u) * v(u));
    }
    SumEq(k, t => a(i, t) * Prod(n, b, col)(t, 0), t => a(i, t) * Apply(n, b, v)(t));
  }

  lemma ReducedRow(a: Mx, k: nat, br: seq<int>, w: int -> int, i: int)
    requires |br| == k && forall t :: 0 <= t < k ==> br[t] == w(t) % P
    ensures Apply(k, a, Vec(br))(i) % P == Apply(k, a, w)(i) % P
  {
    forall t | 0 <= t < k ensures Cong(Vec(br)(t), w(t)) { CongIffSameResidue(br[t], w(t)); }
    ApplyCong(k, a, Vec(br), w, i);
    CongIffSameResidue(Apply(k, a, Vec(br))(i), Apply(k, a, w)(i));
  }

  /** Reducing `B·r` before multiplying by `A` does not change the residue. */
  lemma RoundRow(a: Mx, b: Mx, k: nat, n: nat, br: seq<int>, r: seq<int>, i: int)
    requires |br| == k && forall t :: 0 <= t < k ==> br[t] == Apply(n, b, Vec(r))(t) % P
    ensures Apply(k, a, Vec(br))(i) % P == Apply(n, Prod(k, a, b), Vec(r))(i) % P
  {
    var w := Apply(n, b, Vec(r));
    ApplyAssoc(k, n, a, b, Vec(r), i);
    ReducedRow(a, k, br, w, i);
  }

  lemma RoundDecides(
      a: Mx, b: Mx, c: Mx, m: nat, k: nat, n: nat, r: seq<int>, br: seq<int>, abr: seq<int>, cr: seq<int>)
    requires |br| == k && |abr| == |cr| == m
    requires forall t :: 0 <= t < k ==> br[t] == Apply(n, b, Vec(r))(t) % P
    requires forall i :: 0 <= i < m ==> abr[i] == Apply(k, a, Vec(br))(i) % P
    requires forall i :: 0 <= i < m ==> cr[i] == Apply(n, c, Vec(r))(i) % P
    ensures (forall i :: 0 <= i < m ==> abr[i] == cr[i]) <==> RoundPasses(a, b, c, m, k, n, r)
  {
    forall i | 0 <= i < m
      ensures abr[i] == cr[i] <==> Cong(Apply(n, Prod(k, a, b), Vec(r))(i), Apply(n, c, Vec(r))(i))
    {
      RoundRow(a, b, k, n, br, r, i);
      CongIffSameResidue(Apply(n, Prod(k, a, b), Vec(r))(i), Apply(n, c, Vec(r))(i));
    }
  }

  function Mat(rows: nat, cols: nat, data: seq<int>): Mx { View(Matrix(rows, cols, data)) }

  /** One round as the source runs it. */
  method Round(a: seq<int>, b: seq<int>, c: seq<int>, m: nat, k: nat, n: nat, r: seq<int>) returns (ok: bool)
    requires |a| == m * k && |b| == k * n && |c| == m * n && Bounded(a) && Bounded(b) && Bounded(c)
    requires |r| == n && FieldVector(r)
    ensures ok <==> RoundPasses(Mat(m, k, a), Mat(k, n, b), Mat(m, n, c), m, k, n, r)
  {
    var br := MatVecRect(b, r, k, n);
    var abr := MatVecRect(a, br, m, k);
    var cr := MatVecRect(c, r, m, n);
    RoundDecides(Mat(m, k, a), Mat(k, n, b), Mat(m, n, c), m, k, n, r, br, abr, cr);
    ok := SameEntries(abr, cr, m);
  }

  method SameEntries(x: seq<int>, y: seq<int>, m: nat) returns (ok: bool)
    requires |x| == |y| == m
    ensures ok <==> forall i :: 0 <= i < m ==> x[i] == y[i]
  {
    for i := 0 to m
      invariant forall i0 :: 0 <= i0 < i ==> x[i0] == y[i0]
    {
      if x[i] != y[i] { return false; }
    }
    ok := true;
  }

  predicate Rounds(rs: seq<seq<int>>, n: nat) { forall t :: 0 <= t < |rs| ==> |rs[t]| == n && FieldVector(rs[t]) }

  /** The check with the random vectors `rs`, one per round. */
  method FreivaldsRect(
      a: seq<int>, b: seq<int>, c: seq<int>, m: nat, k: nat, n: nat, rs: seq<seq<int>>) returns (ok: bool)
    requires Bounded(a) && Bounded(b) && Bounded(c) && Rounds(rs, n)
    ensures ok <==> Accepts(a, b, c, m, k, n, rs)
  {
    if |a| != m * k || |b| != k * n || |c| != m * n { return false; }
    for t := 0 to |rs|
      invariant forall t0 :: 0 <= t0 < t ==> RoundPasses(Mat(m, k, a), Mat(k, n, b), Mat(m, n, c), m, k, n, rs[t0])
    {
      var pass := Round(a, b, c, m, k, n, rs[t]);
      if !pass { return false; }
    }
    ok := true;
  }

  ghost predicate Accepts(a: seq<int>, b: seq<int>, c: seq<int>, m: nat, k: nat, n: nat, rs: seq<seq<int>>) {
    && |a| == m * k && |b| == k * n && |c| == m * n
    && forall t :: 0 <= t < |rs| ==> RoundPasses(Mat(m, k, a), Mat(k, n, b), Mat(m, n, c), m, k, n, rs[t])
  }

  // ---- The same check in exact integers ----

  /** `mod` of a BigInt. */
  function BigMod(x: int): (r: int)
    ensures r == x % P && 0 <= r < P
  {
    Canonical(x, x);
    var m := Rem(x);
    if m < 0 then m + P else m
  }

  /**
   The product in exact integers, one reduction per row: the residues `MatVecRect` computes, for entries of any size.
   */
  method MatVec(m: seq<int>, v: seq<int>, n: nat) returns (out: seq<int>)
    requires |m| == n * n && |v| == n && FieldVector(v)
    ensures |out| == n && FieldVector(out)
    ensures forall i :: 0 <= i < n ==> out[i] == Apply(n, View(Matrix(n, n, m)), Vec(v))(i) % P
  {
    out := [];
    for i := 0 to n
      invariant |out| == i && FieldVector(out)
      invariant forall i0 :: 0 <= i0 < i ==> out[i0] == Apply(n, View(Matrix(n, n, m)), Vec(v))(i0) % P
    {
      var s := ExactRow(m, v, n, i);
      out := out + [BigMod(s)];
    }
  }

  method ExactRow(m: seq<int>, v: seq<int>, n: nat, i: nat) returns (s: int)
    requires |m| == n * n && |v| == n && i < n
    ensures s == Apply(n, View(Matrix(n, n, m)), Vec(v))(i)
  {
    ghost var g := k => View(Matrix(n, n, m))(i, k) * Vec(v)(k);
    s := 0;
    for k := 0 to n
      invariant s == Sum(k, g)
    {
      EntryAt(m, n, n, i, k);
      var a := m[i * n + k];
      if a != 0 { s := s + a * v[k]; }
    }
  }

  /** The square check in exact integers decides the same as the rectangular one in doubles. */
  method FreivaldsSquare(a: seq<int>, b: seq<int>, c: seq<int>, n: nat, rs: seq<seq<int>>) returns (ok: bool)
    requires Rounds(rs, n)
    ensures ok <==> Accepts(a, b, c, n, n, n, rs)
  {
    if |a| != n * n || |b| != n * n || |c| != n * n { return false; }
    ok := ExactRounds(a, b, c, n, rs, Mat(n, n, a), Mat(n, n, b), Mat(n, n, c));
  }

  ghost predicate AllPass(a: Mx, b: Mx, c: Mx, n: nat, rs: seq<seq<int>>, t: nat) {
    t <= |rs| && forall t0 {:trigger RoundPasses(a, b, c, n, n, n, rs[t0])} :: 0 <= t0 < t ==>
      RoundPasses(a, b, c, n, n, n, rs[t0])
  }

  lemma OneMorePasses(a: Mx, b: Mx, c: Mx, n: nat, rs: seq<seq<int>>, t: nat)
    requires t < |rs| && AllPass(a, b, c, n, rs, t)
    ensures RoundPasses(a, b, c, n, n, n, rs[t]) ==> AllPass(a, b, c, n, rs, t + 1)
    ensures !RoundPasses(a, b, c, n, n, n, rs[t]) ==> !AllPass(a, b, c, n, rs, |rs|)
  {
  }

  method ExactRounds(
      a: seq<int>, b: seq<int>, c: seq<int>, n: nat, rs: seq<seq<int>>, ghost fa: Mx, ghost fb: Mx, ghost fc: Mx)
      returns (ok: bool)
    requires |a| == n * n && |b| == n * n && |c| == n * n && Rounds(rs, n)
    requires fa == Mat(n, n, a) && fb == Mat(n, n, b) && fc == Mat(n, n, c)
    ensures ok <==> AllPass(fa, fb, fc, n, rs, |rs|)
  {
    for t := 0 to |rs|
      invariant AllPass(fa, fb, fc, n, rs, t)
    {
      OneMorePasses(fa, fb, fc, n, rs, t);
      var pass := ExactRound(a, b, c, n, rs[t], fa, fb, fc);
      if !pass { return false; }
    }
    ok := true;
  }

  method ExactRound(
      a: seq<int>, b: seq<int>, c: seq<int>, n: nat, r: seq<int>, ghost fa: Mx, ghost fb: Mx, ghost fc: Mx)
      returns (ok: bool)
    requires |a| == n * n && |b| == n * n && |c| == n * n && |r| == n && FieldVector(r)
    requires fa == Mat(n, n, a) && fb == Mat(n, n, b) && fc == Mat(n, n, c)
    ensures ok <==> RoundPasses(fa, fb, fc, n, n, n, r)
  {
    var br := MatVec(b, r, n);
    var abr := MatVec(a, br, n);
    var cr := MatVec(c, r, n);
    RoundDecides(fa, fb, fc, n, n, n, r, br, abr, cr);
    ok := SameEntries(abr, cr, n);
  }

  /** A true product (modulo `P`) passes with every vector. */
  lemma Complete(a: Mx, b: Mx, c: Mx, m: nat, k: nat, n: nat, r: seq<int>)
    requires CongMx(m, n, Prod(k, a, b), c)
    ensures RoundPasses(a, b, c, m, k, n, r)
  {
    forall i | 0 <= i < m ensures Cong(Apply(n, Prod(k, a, b), Vec(r))(i), Apply(n, c, Vec(r))(i)) {
      var p := Prod(k, a, b);
      forall t | 0 <= t < n ensures Cong(p(i, t) * Vec(r)(t), c(i, t) * Vec(r)(t)) {
        CongMul(p(i, t), c(i, t), Vec(r)(t), Vec(r)(t));
      }
      SumCong(n, t => p(i, t) * Vec(r)(t), t => c(i, t) * Vec(r)(t));
    }
  }
}
