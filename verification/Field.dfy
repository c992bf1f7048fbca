/**
 Arithmetic modulo the prime of the proof-of-useful-work stack, with JavaScript's truncating
 remainder and doubles that are exact only up to 2^53.
 */
module Field {
  import opened Sums

  const P: int := 1_000_000_007
  const HALF_P: int := (P - 1) / 2

  /** JavaScript's `x % p` (numbers and BigInt alike): the result takes the sign of `x`. */
  function Rem(x: int): (r: int)
    ensures x >= 0 ==> r == x % P
    ensures -P < r < P && (x - r) % P == 0
  {
    MultipleIsZero(if x >= 0 then x / P else -((-x) / P));
    if x >= 0 then x % P else -((-x) % P)
  }

  /** `((x % p) + p) % p`: the canonical residue, whatever the sign of `x`. */
  function ModP(x: int): (r: nat)
    ensures r == x % P
    ensures r < P
  {
    Rem(Rem(x) + P)
  }

  /** Congruence modulo `P`. */
  predicate Cong(x: int, y: int) { (x - y) % P == 0 }

  lemma CongTrans(x: int, y: int, z: int)
    requires Cong(x, y) && Cong(y, z)
    ensures Cong(x, z)
  {
    var s, t := (x - y) / P, (y - z) / P;
    assert x - z == P * (s + t);
    MultipleIsZero(s + t);
  }

  lemma CongShift(x: int, y: int, w: int)
    requires Cong(x, y)
    ensures Cong(x + w, y + w) && Cong(y, x)
  {
    MultipleIsZero(-((x - y) / P));
  }

  lemma CongIffSameResidue(x: int, y: int)
    ensures Cong(x, y) <==> x % P == y % P
  {
  }

  lemma CongMul(a: int, a': int, b: int, b': int)
    requires Cong(a, a') && Cong(b, b')
    ensures Cong(a * b, a' * b')
  {
    var s := (a - a') / P;
    var t := (b - b') / P;
    assert a == a' + P * s && b == b' + P * t;
    MulShift(a', s, b', t);
    assert a * b - a' * b' == P * (a' * t + s * b' + P * s * t);
    MultipleIsZero(a' * t + s * b' + P * s * t);
  }

  lemma MulShift(a: int, s: int, b: int, t: int)
    ensures (a + P * s) * (b + P * t) == a * b + P * (a * t + s * b + P * s * t)
  {
  }

  lemma MultipleIsZero(q: int)
    ensures (P * q) % P == 0
  {
  }

  /** Sums of congruent terms are congruent. */
  lemma {:induction false} SumCong(n: nat, f: int -> int, g: int -> int)
    requires forall k :: 0 <= k < n ==> Cong(f(k), g(k))
    ensures Cong(Sum(n, f), Sum(n, g))
  {
    if n > 0 { SumCong(n - 1, f, g); }
  }

  /** Entrywise congruence of two `rows x cols` matrices. */
  ghost predicate CongMx(rows: nat, cols: nat, a: Mx, b: Mx) {
    forall i, j :: 0 <= i < rows && 0 <= j < cols ==> Cong(a(i, j), b(i, j))
  }

  lemma ProdCong(m: nat, n: nat, q: nat, a: Mx, a': Mx, b: Mx, b': Mx)
    requires CongMx(m, n, a, a') && CongMx(n, q, b, b')
    ensures CongMx(m, q, Prod(n, a, b), Prod(n, a', b'))
  {
    forall i, j | 0 <= i < m && 0 <= j < q
      ensures Cong(Prod(n, a, b)(i, j), Prod(n, a', b')(i, j))
    {
      forall k | 0 <= k < n ensures Cong(a(i, k) * b(k, j), a'(i, k) * b'(k, j)) {
        CongMul(a(i, k), a'(i, k), b(k, j), b'(k, j));
      }
      SumCong(n, k => a(i, k) * b(k, j), k => a'(i, k) * b'(k, j));
    }
  }
}
