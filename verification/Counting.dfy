/** Cardinalities of sets of tuples, and Euclid's lemma. */
module Counting {

  function Pow(b: nat, e: nat): nat { if e == 0 then 1 else Pow(b, e - 1) * b }

  lemma {:induction false} PowMono(b: nat, c: nat, e: nat)
    requires b <= c
    ensures Pow(b, e) <= Pow(c, e)
  {
    if e > 0 {
      PowMono(b, c, e - 1);
      MulMono(Pow(b, e - 1), Pow(c, e - 1), b, c);
    }
  }

  lemma MulMono(x: nat, x': nat, y: nat, y': nat)
    requires x <= x' && y <= y'
    ensures x * y <= x' * y'
  {
    assert x' * y' - x * y == (x' - x) * y' + x * (y' - y);
  }

  /** All sequences of length `n` over `s`. */
  ghost function Tuples<T>(s: set<T>, n: nat): set<seq<T>> {
    if n == 0 then {[]} else Extend(Tuples(s, n - 1), s)
  }

  ghost function Extend<T>(heads: set<seq<T>>, s: set<T>): set<seq<T>> {
    set v, x | v in heads && x in s :: v + [x]
  }

  lemma {:induction false} TuplesMember<T>(s: set<T>, n: nat, v: seq<T>)
    ensures v in Tuples(s, n) <==> |v| == n && forall t :: 0 <= t < n ==> v[t] in s
  {
    if n > 0 {
      if v in Tuples(s, n) {
        var h, x :| h in Tuples(s, n - 1) && x in s && v == h + [x];
        TuplesMember(s, n - 1, h);
      }
      if |v| == n && forall t :: 0 <= t < n ==> v[t] in s {
        var h := v[..n - 1];
        TuplesMember(s, n - 1, h);
        assert v == h + [v[n - 1]];
      }
    }
  }

  /** An injective image has as many elements. */
  lemma {:induction false} InjectiveImage<S, T>(s: set<S>, f: S -> T)
    requires forall x, y :: x in s && y in s && f(x) == f(y) ==> x == y
    ensures |set x | x in s :: f(x)| == |s|
  {
    if s != {} {
      var x0 :| x0 in s;
      var s' := s - {x0};
      InjectiveImage(s', f);
      assert (set x | x in s :: f(x)) == (set x | x in s' :: f(x)) + {f(x0)};
    } else {
      assert (set x | x in s :: f(x)) == {};
    }
  }

  /** Subsets are no larger. */
  lemma {:induction false} SubsetCard<T>(s: set<T>, t: set<T>)
    requires s <= t
    ensures |s| <= |t|
  {
    if s != {} {
      var x :| x in s;
      SubsetCard(s - {x}, t - {x});
    }
  }

  /** A set that maps injectively into another is no larger. */
  lemma InjectionCard<S, T>(s: set<S>, t: set<T>, f: S -> T)
    requires forall x, y :: x in s && y in s && f(x) == f(y) ==> x == y
    requires forall x :: x in s ==> f(x) in t
    ensures |s| <= |t|
  {
    InjectiveImage(s, f);
    SubsetCard(set x | x in s :: f(x), t);
  }

  /** The extensions by one fixed element. */
  ghost function Append<T>(heads: set<seq<T>>, x: T): set<seq<T>> { set v | v in heads :: v + [x] }

  lemma {:induction false} AppendCard<T>(heads: set<seq<T>>, x: T)
    ensures |Append(heads, x)| == |heads|
  {
    if heads == {} {
      assert Append(heads, x) == {};
    } else {
      var v :| v in heads;
      AppendCard(heads - {v}, x);
      assert Append(heads, x) == Append(heads - {v}, x) + {v + [x]};
      assert v + [x] !in Append(heads - {v}, x) by {
        forall w | w in heads - {v} ensures w + [x] != v + [x] {
          assert w == (w + [x])[..|w|] && v == (v + [x])[..|v|];
        }
      }
    }
  }

  lemma ExtendSplit<T>(heads: set<seq<T>>, s: set<T>, x: T)
    requires x in s
    ensures Extend(heads, s) == Extend(heads, s - {x}) + Append(heads, x)
    ensures Extend(heads, s - {x}) !! Append(heads, x)
  {
    forall u | u in Extend(heads, s - {x}) ensures u !in Append(heads, x) { assert u[|u| - 1] != x; }
    forall u | u in Extend(heads, s) ensures u in Extend(heads, s - {x}) || u in Append(heads, x) {
      var v, y :| v in heads && y in s && u == v + [y];
    }
  }

  lemma MulSucc(x: nat, y: nat)
    ensures x * (y + 1) == x * y + x
  {
  }

  lemma {:induction false} ExtendCard<T>(heads: set<seq<T>>, s: set<T>)
    ensures |Extend(heads, s)| == |heads| * |s|
  {
    if s == {} {
      assert Extend(heads, s) == {};
    } else {
      var x :| x in s;
      ExtendCard(heads, s - {x});
      ExtendSplit(heads, s, x);
      AppendCard(heads, x);
      MulSucc(|heads|, |s - {x}|);
    }
  }

  lemma {:induction false} TuplesCard<T>(s: set<T>, n: nat)
    ensures |Tuples(s, n)| == Pow(|s|, n)
  {
    if n > 0 {
      TuplesCard(s, n - 1);
      ExtendCard(Tuples(s, n - 1), s);
    }
  }

  predicate InRange(x: int, n: nat) { 0 <= x < n }

  /** The integers in [0, n). */
  ghost function Below(n: nat): set<int> { set x | 0 <= x < n && InRange(x, n) }

  lemma {:induction false} BelowCard(n: nat)
    ensures |Below(n)| == n
    ensures forall x :: x in Below(n) <==> 0 <= x < n
  {
    forall x ensures x in Below(n) <==> 0 <= x < n { assert InRange(x, n) <==> 0 <= x < n; }
    if n == 0 {
      assert Below(n) == {};
    } else {
      BelowCard(n - 1);
      assert Below(n) == Below(n - 1) + {n - 1};
    }
  }

  ghost predicate IsPrime(p: int) { p > 1 && forall d :: 1 < d < p ==> p % d != 0 }

  /** Euclid's lemma for a factor in (0, p): by descent on the factor. */
  lemma {:induction false} EuclidSmall(p: int, a: nat, b: int)
    requires IsPrime(p) && 0 < a < p && (a * b) % p == 0
    ensures b % p == 0
    decreases a
  {
    if a > 1 {
      var q, r := p / a, p % a;
      assert p == q * a + r && 0 < r < a;
      var t := (a * b) / p;
      assert a * b == p * t;
      DescentStep(p, q, a, r, b, t);
      MultipleMod(p, b - q * t);
      EuclidSmall(p, r, b);
    }
  }

  lemma DescentStep(p: int, q: int, a: int, r: int, b: int, t: int)
    requires p == q * a + r && a * b == p * t
    ensures r * b == p * (b - q * t)
  {
    assert r * b == p * b - q * a * b;
    assert q * a * b == q * (a * b);
    assert q * (p * t) == p * (q * t);
  }

  lemma MultipleMod(p: int, k: int)
    requires p > 0
    ensures (p * k) % p == 0
  {
    DivModUnique(p * k, p, k, 0);
  }

  lemma DivModUnique(x: int, p: int, q: int, r: int)
    requires p > 0 && x == p * q + r && 0 <= r < p
    ensures x % p == r && x / p == q
  {
    var d := q - x / p;
    assert p * d == x % p - r by { assert p * d == p * q - p * (x / p); }
    if d >= 1 { AtLeastOnce(p, d); }
    if d <= -1 { AtLeastOnce(p, -d); }
  }

  lemma AtLeastOnce(p: int, d: int)
    requires p > 0 && d >= 1
    ensures p * d >= p
  {
  }
}
