/**
 Finite sums of integer-valued functions and the matrix product they define: the exact
 integer mathematics that the modular code of the other modules is compared with.
 */
module Sums {

  /** A matrix as a total function of its row and column; only indices in range matter. */
  type Mx = (int, int) -> int

  function Sum(n: nat, f: int -> int): int {
    if n == 0 then 0 else Sum(n - 1, f) + f(n - 1)
  }

  lemma {:induction false} SumEq(n: nat, f: int -> int, g: int -> int)
    requires forall k :: 0 <= k < n ==> f(k) == g(k)
    ensures Sum(n, f) == Sum(n, g)
  {
    if n > 0 { SumEq(n - 1, f, g); }
  }

  lemma {:induction false} SumZero(n: nat, f: int -> int)
    requires forall k :: 0 <= k < n ==> f(k) == 0
    ensures Sum(n, f) == 0
  {
    if n > 0 { SumZero(n - 1, f); }
  }

  lemma {:induction false} SumAdd(n: nat, f: int -> int, g: int -> int, h: int -> int)
    requires forall k :: 0 <= k < n ==> h(k) == f(k) + g(k)
    ensures Sum(n, h) == Sum(n, f) + Sum(n, g)
  {
    if n > 0 { SumAdd(n - 1, f, g, h); }
  }

  lemma {:induction false} SumScale(n: nat, c: int, f: int -> int, h: int -> int)
    requires forall k :: 0 <= k < n ==> h(k) == c * f(k)
    ensures Sum(n, h) == c * Sum(n, f)
  {
    if n > 0 {
      SumScale(n - 1, c, f, h);
      assert c * (Sum(n - 1, f) + f(n - 1)) == c * Sum(n - 1, f) + c * f(n - 1);
    }
  }

  lemma {:induction false} SumSplit(m: nat, n: nat, f: int -> int)
    ensures Sum(m + n, f) == Sum(m, f) + Sum(n, k => f(m + k))
  {
    if n > 0 {
      SumSplit(m, n - 1, f);
    }
  }

  /** Double sums may be taken in either order. */
  lemma {:induction false} SumSwap(m: nat, n: nat, f: Mx)
    ensures Sum(m, i => Sum(n, j => f(i, j))) == Sum(n, j => Sum(m, i => f(i, j)))
  {
    if m == 0 {
      SumZero(n, j => Sum(m, i => f(i, j)));
    } else {
      SumSwap(m - 1, n, f);
      SumAdd(n, j => Sum(m - 1, i => f(i, j)), j => f(m - 1, j), j => Sum(m, i => f(i, j)));
    }
  }

  /** If every term is at most `bound` in size, the sum is at most `n * bound`. */
  lemma {:induction false} SumBound(n: nat, f: int -> int, bound: int)
    requires forall k :: 0 <= k < n ==> -bound <= f(k) <= bound
    ensures -(n * bound) <= Sum(n, f) <= n * bound
  {
    if n > 0 {
      SumBound(n - 1, f, bound);
      assert n * bound == (n - 1) * bound + bound;
    }
  }

  /** The product of an `_ x n` and an `n x _` matrix. */
  function Prod(n: nat, a: Mx, b: Mx): Mx {
    (i, j) => Sum(n, k => a(i, k) * b(k, j))
  }

  function Plus(a: Mx, b: Mx): Mx {
    (i, j) => a(i, j) + b(i, j)
  }

  /** Matrix multiplication is associative: (a·b)·c = a·(b·c). */
  lemma ProdAssoc(m: nat, n: nat, a: Mx, b: Mx, c: Mx, i: int, j: int)
    ensures Prod(n, Prod(m, a, b), c)(i, j) == Prod(m, a, Prod(n, b, c))(i, j)
  {
    var f: Mx := (k, t) => a(i, t) * b(t, k) * c(k, j);
    forall k ensures Prod(m, a, b)(i, k) * c(k, j) == Sum(m, t => f(k, t)) {
      SumScale(m, c(k, j), t => a(i, t) * b(t, k), t => f(k, t));
    }
    SumEq(n, k => Prod(m, a, b)(i, k) * c(k, j), k => Sum(m, t => f(k, t)));
    SumSwap(n, m, f);
    forall t ensures a(i, t) * Prod(n, b, c)(t, j) == Sum(n, k => f(k, t)) {
      forall k ensures f(k, t) == a(i, t) * (b(t, k) * c(k, j)) { MulAssoc(a(i, t), b(t, k), c(k, j)); }
      SumScale(n, a(i, t), k => b(t, k) * c(k, j), k => f(k, t));
    }
    SumEq(m, t => a(i, t) * Prod(n, b, c)(t, j), t => Sum(n, k => f(k, t)));
  }

  lemma MulAssoc(x: int, y: int, z: int)
    ensures x * y * z == x * (y * z)
  {
  }

  /** a·(b + f) = a·b + a·f. */
  lemma ProdPlusRight(n: nat, a: Mx, b: Mx, f: Mx, i: int, j: int)
    ensures Prod(n, a, Plus(b, f))(i, j) == Prod(n, a, b)(i, j) + Prod(n, a, f)(i, j)
  {
    forall k ensures a(i, k) * (b(k, j) + f(k, j)) == a(i, k) * b(k, j) + a(i, k) * f(k, j) {
      Distribute(a(i, k), b(k, j), f(k, j));
    }
    SumAdd(n, k => a(i, k) * b(k, j), k => a(i, k) * f(k, j), k => a(i, k) * Plus(b, f)(k, j));
  }

  /** (a + e)·b = a·b + e·b. */
  lemma ProdPlusLeft(n: nat, a: Mx, e: Mx, b: Mx, i: int, j: int)
    ensures Prod(n, Plus(a, e), b)(i, j) == Prod(n, a, b)(i, j) + Prod(n, e, b)(i, j)
  {
    forall k ensures (a(i, k) + e(i, k)) * b(k, j) == a(i, k) * b(k, j) + e(i, k) * b(k, j) {
      Distribute(b(k, j), a(i, k), e(i, k));
    }
    SumAdd(n, k => a(i, k) * b(k, j), k => e(i, k) * b(k, j), k => Plus(a, e)(i, k) * b(k, j));
  }

  lemma Distribute(a: int, b: int, f: int)
    ensures a * (b + f) == a * b + a * f == (b + f) * a
  {
  }
}
