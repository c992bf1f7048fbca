/**
 Soundness of the check by counting: if the claimed product is wrong modulo `P`, few choices of
 the random vectors accept it (pouw/src/freivalds.ts). That `P` is prime is a hypothesis.
 */
module FreivaldsSound {
  import opened Sums
  import opened Field
  import opened Counting
  import opened Freivalds

  /** All vectors of `n` field elements. */
  ghost function Vectors(n: nat): set<seq<int>> { Tuples(Below(P), n) }

  lemma VectorsCard(n: nat)
    ensures |Vectors(n)| == Pow(P, n)
    ensures forall v :: v in Vectors(n) <==> |v| == n && FieldVector(v)
  {
    TuplesCard(Below(P), n);
    BelowCard(P);
    forall v ensures v in Vectors(n) <==> |v| == n && FieldVector(v) { TuplesMember(Below(P), n, v); }
  }

  /** The vectors with which one round accepts. */
  ghost function Accepting(a: Mx, b: Mx, c: Mx, m: nat, k: nat, n: nat): set<seq<int>> {
    set r | r in Vectors(n) && RoundPasses(a, b, c, m, k, n, r)
  }

  function Scaled(d: int -> int, v: int -> int): int -> int { t => d(t) * v(t) }

  /** `d·r`, over the first `n` coordinates. */
  function Inner(d: int -> int, n: nat, r: seq<int>): int { Sum(n, Scaled(d, Vec(r))) }

  /** The vectors orthogonal, modulo `P`, to the vector `d`. */
  ghost function Orthogonal(d: int -> int, n: nat): set<seq<int>> {
    set r | r in Vectors(n) && Cong(Inner(d, n, r), 0)
  }

  lemma CongCancel(x: int, y: int)
    requires Cong(x, y)
    ensures Cong(x - y, 0)
  {
  }

  /** Row `i` of `A·B - C`. */
  function ErrorRow(a: Mx, b: Mx, c: Mx, k: nat, i: int): int -> int { j => Prod(k, a, b)(i, j) - c(i, j) }

  /** An accepting vector is orthogonal to every row of `A·B - C`. */
  lemma AcceptingIsOrthogonal(a: Mx, b: Mx, c: Mx, m: nat, k: nat, n: nat, i: int)
    requires 0 <= i < m
    ensures Accepting(a, b, c, m, k, n) <= Orthogonal(ErrorRow(a, b, c, k, i), n)
  {
    forall r | r in Accepting(a, b, c, m, k, n) ensures r in Orthogonal(ErrorRow(a, b, c, k, i), n) {
      RoundIsOrthogonal(a, b, c, m, k, n, r, i);
    }
  }

  lemma RoundIsOrthogonal(a: Mx, b: Mx, c: Mx, m: nat, k: nat, n: nat, r: seq<int>, i: int)
    requires 0 <= i < m && RoundPasses(a, b, c, m, k, n, r)
    ensures Cong(Inner(ErrorRow(a, b, c, k, i), n, r), 0)
  {
    InnerOfError(a, b, c, k, n, r, i);
    CongCancel(Apply(n, Prod(k, a, b), Vec(r))(i), Apply(n, c, Vec(r))(i));
  }

  lemma InnerOfError(a: Mx, b: Mx, c: Mx, k: nat, n: nat, r: seq<int>, i: int)
    ensures Inner(ErrorRow(a, b, c, k, i), n, r) == Apply(n, Prod(k, a, b), Vec(r))(i) - Apply(n, c, Vec(r))(i)
  {
    var p := Prod(k, a, b);
    DifferenceRow(p, c, n, r, i);
    SumEq(n, Scaled(ErrorRow(a, b, c, k, i), Vec(r)), j => (p(i, j) - c(i, j)) * Vec(r)(j));
  }

  lemma DifferenceRow(p: Mx, c: Mx, n: nat, r: seq<int>, i: int)
    ensures Sum(n, j => (p(i, j) - c(i, j)) * Vec(r)(j)) == Apply(n, p, Vec(r))(i) - Apply(n, c, Vec(r))(i)
  {
    var x := j => (p(i, j) - c(i, j)) * Vec(r)(j);
    var y := j => c(i, j) * Vec(r)(j);
    forall j ensures p(i, j) * Vec(r)(j) == x(j) + y(j) { SplitProduct(p(i, j), c(i, j), Vec(r)(j)); }
    SumAdd(n, x, y, j => p(i, j) * Vec(r)(j));
  }

  lemma SplitProduct(p: int, c: int, v: int)
    ensures p * v == (p - c) * v + c * v
  {
  }

  /** A sum with at most one nonzero term is that term. */
  lemma {:induction false} SumSingle(n: nat, f: int -> int, t: int)
    requires 0 <= t < n && forall k :: 0 <= k < n && k != t ==> f(k) == 0
    ensures Sum(n, f) == f(t)
  {
    if t == n - 1 { SumZero(n - 1, f); } else { SumSingle(n - 1, f, t); }
  }

  function Drop(v: seq<int>, j: nat): seq<int> {
    if j < |v| then v[..j] + v[j + 1..] else v
  }

  lemma DropAgree(v: seq<int>, w: seq<int>, j: nat, t: int)
    requires |v| == |w| && j < |v| && Drop(v, j) == Drop(w, j) && 0 <= t < |v| && t != j
    ensures v[t] == w[t]
  {
    if t < j { assert v[t] == Drop(v, j)[t] && w[t] == Drop(w, j)[t]; }
    else { assert v[t] == Drop(v, j)[t - 1] && w[t] == Drop(w, j)[t - 1]; }
  }

  /** Inner products with vectors that agree but in coordinate `j` differ by that coordinate's term. */
  lemma {:induction false} LineSums(d: int -> int, v: int -> int, w: int -> int, n: nat, j: nat)
    requires j < n && forall t :: 0 <= t < n && t != j ==> v(t) == w(t)
    ensures Sum(n, Scaled(d, v)) - Sum(n, Scaled(d, w)) == d(j) * (v(j) - w(j))
  {
    if j == n - 1 {
      SumEq(n - 1, Scaled(d, v), Scaled(d, w));
      DiffProduct(d(j), v(j), w(j));
    } else {
      LineSums(d, v, w, n - 1, j);
      assert v(n - 1) == w(n - 1);
    }
  }

  /** Two vectors that differ only in coordinate `j` have inner products that differ by that coordinate's term. */
  lemma LineDifference(d: int -> int, n: nat, j: nat, v: seq<int>, w: seq<int>)
    requires j < n && |v| == |w| == n && Drop(v, j) == Drop(w, j)
    ensures Inner(d, n, v) - Inner(d, n, w) == d(j) * (v[j] - w[j])
  {
    forall t | 0 <= t < n && t != j ensures Vec(v)(t) == Vec(w)(t) { DropAgree(v, w, j, t); }
    LineSums(d, Vec(v), Vec(w), n, j);
  }

  lemma CongZeroDiff(x: int, y: int)
    requires Cong(x, 0) && Cong(y, 0)
    ensures Cong(x - y, 0)
  {
  }

  lemma SmallCongEqual(x: int, y: int)
    requires 0 <= x < P && 0 <= y < P && Cong(x - y, 0)
    ensures x == y
  {
  }

  /** With all coordinates but `j` fixed, at most one value of coordinate `j` is orthogonal. */
  lemma OneValuePerLine(d: int -> int, n: nat, j: nat, v: seq<int>, w: seq<int>)
    requires IsPrime(P) && j < n && !Cong(d(j), 0)
    requires |v| == |w| == n && FieldVector(v) && FieldVector(w)
    requires Cong(Inner(d, n, v), 0) && Cong(Inner(d, n, w), 0) && Drop(v, j) == Drop(w, j)
    ensures v == w
  {
    LineDifference(d, n, j, v, w);
    CongZeroDiff(Inner(d, n, v), Inner(d, n, w));
    EuclidP(d(j), v[j] - w[j]);
    SmallCongEqual(v[j], w[j]);
    forall t | 0 <= t < n ensures v[t] == w[t] { if t != j { DropAgree(v, w, j, t); } }
  }

  lemma DiffProduct(d: int, v: int, w: int)
    ensures d * v == d * (v - w) + d * w
  {
  }

  lemma Residue(a: int)
    ensures Cong(a % P, a) && (!Cong(a, 0) ==> 0 < a % P < P)
  {
    MultipleIsZero(-(a / P));
  }

  lemma EuclidP(a: int, b: int)
    requires IsPrime(P) && !Cong(a, 0) && Cong(a * b, 0)
    ensures Cong(b, 0)
  {
    Residue(a);
    CongMul(a % P, a, b, b);
    CongTrans(a % P * b, a * b, 0);
    EuclidSmall(P, a % P, b);
  }

  lemma SameLine(d: int -> int, n: nat, j: nat, v: seq<int>, w: seq<int>)
    requires IsPrime(P) && j < n && !Cong(d(j), 0) && v in Orthogonal(d, n) && w in Orthogonal(d, n)
      && Drop(v, j) == Drop(w, j)
    ensures v == w
  {
    VectorsCard(n);
    OneValuePerLine(d, n, j, v, w);
  }

  lemma DropIn(d: int -> int, n: nat, j: nat, v: seq<int>)
    requires j < n && v in Orthogonal(d, n)
    ensures Drop(v, j) in Vectors(n - 1)
  {
    VectorsCard(n);
    VectorsCard(n - 1);
    DropStays(v, j);
  }

  lemma OrthogonalCard(d: int -> int, n: nat, j: nat)
    requires IsPrime(P) && j < n && !Cong(d(j), 0)
    ensures |Orthogonal(d, n)| <= Pow(P, n - 1)
  {
    DropInjects(d, n, j, Orthogonal(d, n), Vectors(n - 1));
    VectorsCard(n - 1);
  }

  lemma DropInjects(d: int -> int, n: nat, j: nat, s: set<seq<int>>, target: set<seq<int>>)
    requires IsPrime(P) && j < n && !Cong(d(j), 0) && s == Orthogonal(d, n) && target == Vectors(n - 1)
    ensures |s| <= |target|
  {
    var drop := v => Drop(v, j);
    forall v, w | v in s && w in s && drop(v) == drop(w) ensures v == w { SameLine(d, n, j, v, w); }
    forall v | v in s ensures drop(v) in target { DropIn(d, n, j, v); }
    InjectionCard(s, target, drop);
  }

  lemma DropStays(v: seq<int>, j: nat)
    requires j < |v| && FieldVector(v)
    ensures |Drop(v, j)| == |v| - 1 && FieldVector(Drop(v, j))
  {
  }

  /** One round accepts a wrong product for at most `P^(n-1)` of the `P^n` vectors. */
  lemma OneRound(a: Mx, b: Mx, c: Mx, m: nat, k: nat, n: nat)
    requires IsPrime(P) && !CongMx(m, n, Prod(k, a, b), c)
    ensures n >= 1 && |Vectors(n)| == Pow(P, n) && |Accepting(a, b, c, m, k, n)| <= Pow(P, n - 1)
  {
    VectorsCard(n);
    var i, j :| 0 <= i < m && 0 <= j < n && !Cong(Prod(k, a, b)(i, j), c(i, j));
    var d := ErrorRow(a, b, c, k, i);
    AcceptingIsOrthogonal(a, b, c, m, k, n, i);
    OrthogonalCard(d, n, j);
    SubsetCard(Accepting(a, b, c, m, k, n), Orthogonal(d, n));
  }

  /** The choices of `rounds` vectors with which the whole check accepts. */
  ghost function AcceptingRuns(
      a: seq<int>, b: seq<int>, c: seq<int>, m: nat, k: nat, n: nat, rounds: nat): set<seq<seq<int>>>
  {
    set rs | rs in Tuples(Vectors(n), rounds) && Accepts(a, b, c, m, k, n, rs)
  }

  /**
   The whole check accepts a wrong product for at most `P^(n-1)` to the power `rounds` of the
   `P^n` to the power `rounds` choices: a fraction of at most `P^-rounds`.
   */
  lemma Sound(a: seq<int>, b: seq<int>, c: seq<int>, m: nat, k: nat, n: nat, rounds: nat)
    requires IsPrime(P) && !CongMx(m, n, Prod(k, Mat(m, k, a), Mat(k, n, b)), Mat(m, n, c))
    ensures n >= 1 && |Tuples(Vectors(n), rounds)| == Pow(Pow(P, n), rounds)
    ensures |AcceptingRuns(a, b, c, m, k, n, rounds)| <= Pow(Pow(P, n - 1), rounds)
  {
    OneRound(Mat(m, k, a), Mat(k, n, b), Mat(m, n, c), m, k, n);
    TuplesCard(Vectors(n), rounds);
    var acc := Accepting(Mat(m, k, a), Mat(k, n, b), Mat(m, n, c), m, k, n);
    forall rs | rs in AcceptingRuns(a, b, c, m, k, n, rounds) ensures rs in Tuples(acc, rounds) {
      TuplesMember(Vectors(n), rounds, rs);
      TuplesMember(acc, rounds, rs);
    }
    SubsetCard(AcceptingRuns(a, b, c, m, k, n, rounds), Tuples(acc, rounds));
    TuplesCard(acc, rounds);
    PowMono(|acc|, Pow(P, n - 1), rounds);
  }
}
