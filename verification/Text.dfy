/** Decimal numbers, joined fields and the facts that make them readable back. */
module Text {

  predicate Digits(s: string) { |s| > 0 && forall k :: 0 <= k < |s| ==> '0' <= s[k] <= '9' }

  function Digit(d: nat): char
    requires d < 10
  {
    ('0' as int + d) as char
  }

  /** Decimal notation, as a template string prints a non-negative integer. */
  function Decimal(n: nat): (s: string)
    ensures Digits(s)
  {
    if n < 10 then [Digit(n)] else Decimal(n / 10) + [Digit(n % 10)]
  }

  /** The number a decimal text stands for. */
  ghost function ValueOf(s: string): int {
    if s == "" then 0 else 10 * ValueOf(s[..|s| - 1]) + (s[|s| - 1] as int - 48)
  }

  /** Decimal notation reads back as the number, and has no leading zero. */
  lemma {:induction false} DecimalReads(n: nat)
    ensures ValueOf(Decimal(n)) == n && (n > 0 ==> Decimal(n)[0] != '0')
  {
    var s := Decimal(n);
    if n >= 10 {
      DecimalReads(n / 10);
      assert s[..|s| - 1] == Decimal(n / 10);
    } else {
      assert s[..0] == "";
    }
  }

  lemma {:induction false} DecimalInjective(m: nat, n: nat)
    requires Decimal(m) == Decimal(n)
    ensures m == n
    decreases m
  {
    var s := Decimal(m);
    assert s[|s| - 1] == Digit(m % 10) == Digit(n % 10);
    assert m < 10 <==> |s| == 1;
    assert n < 10 <==> |s| == 1;
    if m >= 10 {
      assert s[..|s| - 1] == Decimal(m / 10) == Decimal(n / 10);
      DecimalInjective(m / 10, n / 10);
    }
  }

  /** `c` does not occur in `s`. */
  predicate Free(s: string, c: char) { forall k :: 0 <= k < |s| ==> s[k] != c }

  /** The text before the first separator, and the text after it, can be read back. */
  lemma SplitFirst(a: string, b: string, c: char, x: string, y: string)
    requires Free(a, c) && Free(b, c) && a + [c] + x == b + [c] + y
    ensures a == b && x == y
  {
    var s := a + [c] + x;
    assert s[|a|] == c && s[|b|] == c;
    assert s[..|a|] == a && s[..|b|] == b;
    assert forall k :: 0 <= k < |a| ==> s[k] == a[k];
    assert forall k :: 0 <= k < |b| ==> s[k] == b[k];
    assert |a| == |b|;
    assert x == s[|a| + 1..] && y == s[|b| + 1..];
  }

  /** The text after the last separator, and the text before it, can be read back. */
  lemma SplitLast(a: string, b: string, c: char, x: string, y: string)
    requires Free(x, c) && Free(y, c) && a + [c] + x == b + [c] + y
    ensures a == b && x == y
  {
    var s := a + [c] + x;
    assert s == b + [c] + y;
    assert s[|a|] == c && s[|b|] == c;
    assert forall k :: |a| < k < |s| ==> s[k] == x[k - |a| - 1];
    assert forall k :: |b| < k < |s| ==> s[k] == y[k - |b| - 1];
    assert |a| == |b|;
    assert a == s[..|a|] && b == s[..|b|];
    assert x == s[|a| + 1..] && y == s[|b| + 1..];
  }

  /** Suffixes of equal length can be read back. */
  lemma SplitSuffix(a: string, b: string, x: string, y: string)
    requires a + x == b + y && |x| == |y|
    ensures a == b && x == y
  {
    var s := a + x;
    assert a == s[..|a|] && b == s[..|b|] && x == s[|a|..] && y == s[|b|..];
  }

  /** `parts.join(sep)`. */
  function Join(parts: seq<string>, sep: char): string {
    if |parts| == 0 then "" else if |parts| == 1 then parts[0] else parts[0] + [sep] + Join(parts[1..], sep)
  }

  /** The join of two nonempty lists is their joins with one separator between; a single field stands alone. */
  lemma {:induction false} JoinSplits(p: seq<string>, q: seq<string>, sep: char)
    requires p != [] && q != []
    ensures Join(p + q, sep) == Join(p, sep) + [sep] + Join(q, sep)
    ensures |p| == 1 ==> Join(p, sep) == p[0]
  {
    if |p| == 1 {
      assert (p + q)[1..] == q;
    } else {
      JoinSplits(p[1..], q, sep);
      assert (p + q)[1..] == p[1..] + q;
    }
  }

  lemma {:induction false} JoinFree(parts: seq<string>, sep: char, c: char)
    requires c != sep && forall k :: 0 <= k < |parts| ==> Free(parts[k], c)
    ensures Free(Join(parts, sep), c)
  {
    if |parts| > 1 { JoinFree(parts[1..], sep, c); }
  }

  /** A field: nonempty and free of the separator. */
  predicate JoinField(s: string, sep: char) { |s| > 0 && Free(s, sep) }

  lemma JoinShape(p: seq<string>, sep: char)
    requires forall k :: 0 <= k < |p| ==> JoinField(p[k], sep)
    ensures |p| == 0 <==> |Join(p, sep)| == 0
    ensures |p| > 1 <==> !Free(Join(p, sep), sep)
  {
    if |p| > 1 { assert Join(p, sep)[|p[0]|] == sep; }
  }

  /** Fields can be read back from their join. */
  lemma {:induction false} JoinInjective(p: seq<string>, q: seq<string>, sep: char)
    requires forall k :: 0 <= k < |p| ==> JoinField(p[k], sep)
    requires forall k :: 0 <= k < |q| ==> JoinField(q[k], sep)
    requires Join(p, sep) == Join(q, sep)
    ensures p == q
  {
    JoinShape(p, sep);
    JoinShape(q, sep);
    if |p| > 1 {
      SplitFirst(p[0], q[0], sep, Join(p[1..], sep), Join(q[1..], sep));
      JoinInjective(p[1..], q[1..], sep);
      assert p == [p[0]] + p[1..] && q == [q[0]] + q[1..];
    }
  }

  /** `/^[0-9a-f]{64}$/`. */
  predicate IsHash(s: string) { |s| == 64 && forall k :: 0 <= k < 64 ==> '0' <= s[k] <= '9' || 'a' <= s[k] <= 'f' }
}
