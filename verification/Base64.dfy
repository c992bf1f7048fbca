/**
 The hand-written base64 codec (shared/sealed.ts), base64 as in section 4 of RFC 4648. Its decoder keeps every digit
 in one 32-bit accumulator that wraps around.
 */
module Base64 {
  import opened Wrappers
  import opened Batches
  import opened Counting

  predicate AllBelow(s: seq<int>, limit: int) { forall k :: 0 <= k < |s| ==> 0 <= s[k] < limit }

  /** A byte string. */
  predicate AreBytes(b: seq<int>) { AllBelow(b, 256) }

  // ---- The alphabet ----

  predicate IsB64(c: char) { 'A' <= c <= 'Z' || 'a' <= c <= 'z' || '0' <= c <= '9' || c == '+' || c == '/' }

  function Char(v: int): (c: char)
    requires 0 <= v < 64
    ensures IsB64(c) && Index(c) == v
  {
    if v < 26 then 'A' + v as char else if v < 52 then 'a' + (v - 26) as char else if v < 62 then '0' + (v - 52) as char
      else if v == 62 then '+' else '/'
  }

  /** `B64.indexOf`. */
  function Index(c: char): (v: int)
    requires IsB64(c)
    ensures 0 <= v < 64
  {
    if 'A' <= c <= 'Z' then c as int - 'A' as int else if 'a' <= c <= 'z' then c as int - 'a' as int + 26
    else if '0' <= c <= '9' then c as int - '0' as int + 52 else if c == '+' then 62 else 63
  }

  /** The alphabet runs from A to Z, a to z, 0 to 9, and ends with + and /. */
  lemma AlphabetIs()
    ensures [Char(0), Char(25), Char(26), Char(51), Char(52), Char(61), Char(62), Char(63)] == "AZaz09+/"
    ensures forall v :: 0 <= v < 61 && v != 25 && v != 51 ==> Char(v + 1) as int == Char(v) as int + 1
  {
  }

  // ---- Groups of three bytes and four digits ----

  function D0(a: int): int { a / 4 }
  function D1(a: int, b: int): int { a % 4 * 16 + b / 16 }
  function D2(b: int, c: int): int { b % 16 * 4 + c / 64 }
  function D3(c: int): int { c % 64 }

  function At(b: seq<int>, i: nat): int { if i < |b| then b[i] else 0 }

  /** Digit `m` of the group of bytes that starts at `i`; missing bytes count as zero. */
  function GroupDigit(b: seq<int>, i: nat, m: nat): int {
    if m == 0 then D0(At(b, i)) else if m == 1 then D1(At(b, i), At(b, i + 1))
      else if m == 2 then D2(At(b, i + 1), At(b, i + 2)) else D3(At(b, i + 2))
  }

  /** The byte that place `m` of a group takes from its digits `u` and `v`. */
  function GroupByte(m: nat, u: int, v: int): int {
    if m == 0 then u * 4 + v / 16 else if m == 1 then u % 16 * 16 + v / 4 else u % 4 * 64 + v
  }

  /** Byte `i` of the text with digits `d`. */
  function ByteAt(d: seq<int>, i: nat): int {
    GroupByte(i % 3, At(d, 4 * (i / 3) + i % 3), At(d, 4 * (i / 3) + i % 3 + 1))
  }

  /** All whole bytes the digits carry; bits left over are dropped. */
  function ToBytes(d: seq<int>): seq<int> { seq(|d| * 3 / 4, i requires 0 <= i < |d| * 3 / 4 => ByteAt(d, i)) }

  lemma GroupRoundTrip(a: int, b: int, c: int)
    requires 0 <= a < 256 && 0 <= b < 256 && 0 <= c < 256
    ensures GroupByte(0, D0(a), D1(a, b)) == a && GroupByte(1, D1(a, b), D2(b, c)) == b
      && GroupByte(2, D2(b, c), D3(c)) == c
    ensures 0 <= D0(a) < 64 && 0 <= D1(a, b) < 64 && 0 <= D2(b, c) < 64 && 0 <= D3(c) < 64
  {
  }

  // ---- Encoding ----

  /** Digits that carry `n` bytes. */
  function DigitCount(n: nat): nat { n / 3 * 4 + if n % 3 == 0 then 0 else n % 3 + 1 }

  function DigitAt(b: seq<int>, k: nat): int { GroupDigit(b, k / 4 * 3, k % 4) }

  lemma DigitOk(b: seq<int>, k: nat)
    requires AreBytes(b)
    ensures 0 <= DigitAt(b, k) < 64
  {
    GroupRoundTrip(At(b, k / 4 * 3), At(b, k / 4 * 3 + 1), At(b, k / 4 * 3 + 2));
  }

  /** The digits, then padding up to a whole group. */
  function Encode(b: seq<int>): string
    requires AreBytes(b)
  {
    seq((|b| + 2) / 3 * 4, k requires 0 <= k < (|b| + 2) / 3 * 4 => CharAt(b, k))
  }

  function CharAt(b: seq<int>, k: nat): char
    requires AreBytes(b)
  {
    DigitOk(b, k);
    if k < DigitCount(|b|) then Char(DigitAt(b, k)) else '='
  }

  lemma Shift6(x: int, y: int, n: int)
    requires 0 <= y < 64 && n == x * 64 + y
    ensures n / 64 == x && n % 64 == y
  {
  }

  /** The four digits of a 24-bit number made of three bytes. */
  lemma Bits24(a: int, b: int, c: int, n: int)
    requires 0 <= a < 256 && 0 <= b < 256 && 0 <= c < 256 && n == a * 0x1_0000 + b * 256 + c
    ensures n / 0x4_0000 % 64 == D0(a) && n / 0x1000 % 64 == D1(a, b) && n / 64 % 64 == D2(b, c) && n % 64 == D3(c)
  {
    var p, q, r, t := D0(a), D1(a, b), D2(b, c), D3(c);
    assert n == ((p * 64 + q) * 64 + r) * 64 + t;
    Shift6((p * 64 + q) * 64 + r, t, n);
    Shift6(p * 64 + q, r, n / 64);
    Shift6(p, q, n / 64 / 64);
    assert n / 0x1000 == n / 64 / 64 && n / 0x4_0000 == n / 64 / 64 / 64;
  }

  /** Place `m` of group `g`. */
  lemma PlaceOf(b: seq<int>, g: nat, m: nat)
    requires m < 4
    ensures DigitAt(b, 4 * g + m) == GroupDigit(b, 3 * g, m)
  {
    DivModUnique(4 * g + m, 4, g, m);
  }

  lemma CountOf(n: nat, g: nat, m: nat)
    requires 3 * g < n && m < 4
    ensures 4 * g + m < DigitCount(n) <==> (m < 2 || 3 * g + m - 1 < n)
  {
    var h, r := n / 3, n % 3;
    assert n == 3 * h + r;
  }

  lemma GroupChar(b: seq<int>, g: nat, m: nat, v: int)
    requires AreBytes(b) && 3 * g < |b| && m < 4 && v == GroupDigit(b, 3 * g, m)
    ensures 0 <= v < 64 && CharAt(b, 4 * g + m) == if m < 2 || 3 * g + m - 1 < |b| then Char(v) else '='
  {
    PlaceOf(b, g, m);
    CountOf(|b|, g, m);
    DigitOk(b, 4 * g + m);
  }

  /** The digits of a group from its 24-bit number. */
  lemma GroupDigits(b: seq<int>, i: nat, n: int)
    requires AreBytes(b) && i < |b| && n == b[i] * 0x1_0000 + At(b, i + 1) * 256 + At(b, i + 2)
    ensures n / 0x4_0000 % 64 == GroupDigit(b, i, 0) && n / 0x1000 % 64 == GroupDigit(b, i, 1)
    ensures n / 64 % 64 == GroupDigit(b, i, 2) && n % 64 == GroupDigit(b, i, 3)
  {
    Bits24(b[i], At(b, i + 1), At(b, i + 2), n);
  }

  lemma EncodedChar(b: seq<int>, e: string, g: nat, m: nat, v: int, k: nat, padded: bool)
    requires AreBytes(b) && e == Encode(b) && 3 * g < |b| && m < 4 && v == GroupDigit(b, 3 * g, m)
    requires k == 4 * g + m && (padded <==> m >= 2 && 3 * g + m - 1 >= |b|)
    ensures k < |e| && 0 <= v < 64 && e[k] == if padded then '=' else Char(v)
  {
    GroupChar(b, g, m, v);
    assert 4 * g + 4 <= (|b| + 2) / 3 * 4;
  }

  lemma SixthsOf(a: int, b: int, c: int)
    requires 0 <= a < 256 && 0 <= b < 256 && 0 <= c < 256
    ensures D0(a) * 0x4_0000 + D1(a, b) * 0x1000 + D2(b, c) * 64 + D3(c) == a * 0x1_0000 + b * 0x100 + c
  {
  }

  lemma GroupSixths(b: seq<int>, i: nat, p: int, q: int, r: int, t: int)
    requires AreBytes(b) && p == GroupDigit(b, i, 0) && q == GroupDigit(b, i, 1) && r == GroupDigit(b, i, 2)
      && t == GroupDigit(b, i, 3)
    ensures p * 0x4_0000 + q * 0x1000 + r * 64 + t == At(b, i) * 0x1_0000 + At(b, i + 1) * 0x100 + At(b, i + 2)
  {
    SixthsOf(At(b, i), At(b, i + 1), At(b, i + 2));
  }

  /** Four characters stand for three bytes, the same 24 bits in sixths; bytes missing at the end leave padding. */
  lemma EncodedGroup(b: seq<int>, e: string, g: nat, i: nat, k: nat, missing: int)
      returns (p: int, q: int, r: int, t: int)
    requires AreBytes(b) && e == Encode(b) && i == 3 * g < |b| && k == 4 * g
    requires missing == if i + 3 > |b| then i + 3 - |b| else 0
    ensures 0 <= p < 64 && 0 <= q < 64 && 0 <= r < 64 && 0 <= t < 64 && k + 4 <= |e|
    ensures p * 0x4_0000 + q * 0x1000 + r * 64 + t == At(b, i) * 0x1_0000 + At(b, i + 1) * 0x100 + At(b, i + 2)
    ensures e[k] == Char(p) && e[k + 1] == Char(q) && e[k + 2] == (if missing == 2 then '=' else Char(r))
    ensures e[k + 3] == if missing >= 1 then '=' else Char(t)
  {
    p, q, r, t := GroupDigit(b, i, 0), GroupDigit(b, i, 1), GroupDigit(b, i, 2), GroupDigit(b, i, 3);
    GroupSixths(b, i, p, q, r, t);
    DigitsToText(b, e, g, p, q, r, t, k, missing);
  }

  lemma DigitsToText(b: seq<int>, e: string, g: nat, p: int, q: int, r: int, t: int, k: nat, missing: int)
    requires AreBytes(b) && e == Encode(b) && 3 * g < |b| && k == 4 * g
    requires missing == if 3 * g + 3 > |b| then 3 * g + 3 - |b| else 0
    requires p == GroupDigit(b, 3 * g, 0) && q == GroupDigit(b, 3 * g, 1)
    requires r == GroupDigit(b, 3 * g, 2) && t == GroupDigit(b, 3 * g, 3)
    ensures 0 <= p < 64 && 0 <= q < 64 && 0 <= r < 64 && 0 <= t < 64 && k + 4 <= |e|
    ensures e[k] == Char(p) && e[k + 1] == Char(q) && e[k + 2] == (if missing == 2 then '=' else Char(r))
    ensures e[k + 3] == if missing >= 1 then '=' else Char(t)
  {
    EncodedChar(b, e, g, 0, p, k, false);
    EncodedChar(b, e, g, 1, q, k + 1, false);
    EncodedChar(b, e, g, 2, r, k + 2, missing == 2);
    EncodedChar(b, e, g, 3, t, k + 3, missing >= 1);
  }

  lemma Groups(n: nat, g: nat)
    ensures 3 * g < n ==> 4 * g + 4 <= (n + 2) / 3 * 4
    ensures n <= 3 * g < n + 3 ==> (n + 2) / 3 * 4 == 4 * g
  {
  }

  lemma FourOf(e: string, k: nat, part: string)
    requires |part| == 4 && k + 4 <= |e| && e[k] == part[0] && e[k + 1] == part[1] && e[k + 2] == part[2]
      && e[k + 3] == part[3]
    ensures e[k..k + 4] == part
  {
  }

  /** Character `m` of group `g`, from its digit `v`. */
  method GroupText(bytes: seq<int>, i: nat, m: nat, v: int, ghost g: nat, ghost e: string) returns (c: char)
    requires AreBytes(bytes) && i == 3 * g < |bytes| && m < 4 && v == GroupDigit(bytes, i, m)
      && e == Encode(bytes) && 4 * g + m < |e|
    ensures c == e[4 * g + m]
  {
    GroupChar(bytes, g, m, v);
    c := if m < 2 || i + m - 1 < |bytes| then Char(v) else '=';
  }

  /** The 24-bit number of a group, cut into four digits. */
  method SplitGroup(bytes: seq<int>, i: nat) returns (p: int, q: int, r: int, t: int)
    requires AreBytes(bytes) && i < |bytes|
    ensures p == GroupDigit(bytes, i, 0) && q == GroupDigit(bytes, i, 1) && r == GroupDigit(bytes, i, 2)
      && t == GroupDigit(bytes, i, 3)
  {
    var n := bytes[i] * 0x1_0000 + At(bytes, i + 1) * 256 + At(bytes, i + 2);
    GroupDigits(bytes, i, n);
    p, q, r, t := n / 0x4_0000 % 64, n / 0x1000 % 64, n / 64 % 64, n % 64;
  }

  /** The four characters of a group. */
  method FourTexts(bytes: seq<int>, i: nat, p: int, q: int, r: int, t: int, ghost g: nat, ghost k: nat, ghost e: string)
      returns (w: char, x: char, y: char, z: char)
    requires AreBytes(bytes) && i == 3 * g < |bytes| && e == Encode(bytes) && k == 4 * g && k + 4 <= |e|
    requires p == GroupDigit(bytes, i, 0) && q == GroupDigit(bytes, i, 1) && r == GroupDigit(bytes, i, 2)
      && t == GroupDigit(bytes, i, 3)
    ensures w == e[k] && x == e[k + 1] && y == e[k + 2] && z == e[k + 3]
  {
    w := GroupText(bytes, i, 0, p, g, e);
    x := GroupText(bytes, i, 1, q, g, e);
    y := GroupText(bytes, i, 2, r, g, e);
    z := GroupText(bytes, i, 3, t, g, e);
  }

  /** One round of the encoder's loop. */
  method EncodeGroup(bytes: seq<int>, i: nat, ghost g: nat, ghost e: string) returns (part: string)
    requires AreBytes(bytes) && i == 3 * g < |bytes| && e == Encode(bytes) && 4 * g + 4 <= |e|
    ensures part == e[4 * g..4 * g + 4]
  {
    var p, q, r, t := SplitGroup(bytes, i);
    var w, x, y, z := FourTexts(bytes, i, p, q, r, t, g, 4 * g, e);
    part := [w, x, y, z];
    FourOf(e, 4 * g, part);
  }

  method ToBase64(bytes: seq<int>) returns (s: string)
    requires AreBytes(bytes)
    ensures s == Encode(bytes)
  {
    s := "";
    var i: nat := 0;
    ghost var g: nat := 0;
    while i < |bytes|
      invariant i == 3 * g <= |bytes| + 2 && 4 * g <= |Encode(bytes)| && s == Encode(bytes)[..4 * g]
    {
      Groups(|bytes|, g);
      var part := EncodeGroup(bytes, i, g, Encode(bytes));
      Glue(Encode(bytes), 4 * g, 4 * g + 4);
      s := s + part;
      i, g := i + 3, g + 1;
    }
    Groups(|bytes|, g);
  }

  // ---- Decoding ----

  /** `\s` of a JavaScript regular expression. */
  predicate IsSpace(c: char) {
    || '\t' <= c <= '\r' || c == ' ' || c == '\U{00A0}' || c == '\U{1680}' || '\U{2000}' <= c <= '\U{200A}'
      || c == '\U{2028}' || c == '\U{2029}'
    || c == '\U{202F}' || c == '\U{205F}' || c == '\U{3000}' || c == '\U{FEFF}'
  }

  function Without(s: string, drop: char -> bool): string {
    if s == "" then "" else (if drop(s[0]) then "" else [s[0]]) + Without(s[1..], drop)
  }

  function NoSpace(s: string): string { Without(s, IsSpace) }

  function NoPadding(s: string): string { if s != "" && s[|s| - 1] == '=' then NoPadding(s[..|s| - 1]) else s }

  predicate AllB64(s: string) { forall k :: 0 <= k < |s| ==> IsB64(s[k]) }

  function Indices(s: string): (d: seq<int>)
    requires AllB64(s)
    ensures |d| == |s| && AllBelow(d, 64)
  {
    seq(|s|, k requires 0 <= k < |s| => Index(s[k]))
  }

  function Decode(s: string): Result<seq<int>> {
    var clean := NoPadding(NoSpace(s));
    if !AllB64(clean) || |clean| % 4 == 1 then Err else Ok(ToBytes(Indices(clean)))
  }

  /** A number as a signed 32-bit integer. */
  function Wrap32(x: int): (r: int)
    ensures -0x8000_0000 <= r < 0x8000_0000 && (r - x) % 0x1_0000_0000 == 0
  {
    (x + 0x8000_0000) % 0x1_0000_0000 - 0x8000_0000
  }

  lemma Low12(acc: int, k: int, v: int, u: int, t: int)
    requires acc % 4096 == t * 64 + u && 0 <= v < 64 && 0 <= u < 64
    ensures (acc * 64 + k * 0x1_0000_0000 + v) % 4096 == u * 64 + v
  {
    DivModUnique(acc * 64 + k * 0x1_0000_0000 + v, 4096, 64 * (acc / 4096) + t + k * 0x10_0000, u * 64 + v);
  }

  /**
   After a digit, the low twelve bits of the accumulator are the last two digits, whatever the wrap-around did to the
   rest.
   */
  lemma AccStep(acc: int, u: int, v: int, t: int)
    requires acc % 4096 == t * 64 + u && 0 <= u < 64 && 0 <= v < 64
    ensures (Wrap32(acc * 64) + v) % 4096 == u * 64 + v
  {
    var k := (Wrap32(acc * 64) - acc * 64) / 0x1_0000_0000;
    assert Wrap32(acc * 64) == acc * 64 + k * 0x1_0000_0000;
    Low12(acc, k, v, u, t);
  }

  /** Bits waiting in the accumulator after `n` digits: six more each, eight fewer for each byte. */
  function Waiting(n: nat): nat {
    if n == 0 then 0 else if Waiting(n - 1) + 6 >= 8 then Waiting(n - 1) + 6 - 8 else Waiting(n - 1) + 6
  }

  /** Bytes completed by `n` digits. */
  function Done(n: nat): nat { if n == 0 then 0 else if Waiting(n - 1) + 6 >= 8 then Done(n - 1) + 1 else Done(n - 1) }

  /** Both after `m` digits of group `g`. */
  lemma {:induction false} Phase(g: nat, m: nat, n: nat)
    requires m < 4 && n == 4 * g + m
    ensures Waiting(n) == (if m == 0 then 0 else if m == 1 then 6 else if m == 2 then 4 else 2)
    ensures Done(n) == 3 * g + if m == 0 then 0 else m - 1
    decreases n
  {
    if m > 0 { Phase(g, m - 1, n - 1); } else if g > 0 { Phase(g - 1, 3, n - 1); }
  }

  lemma DoneIsWhole(n: nat)
    ensures Done(n) == n * 3 / 4
  {
    var g, m := n / 4, n % 4;
    Phase(g, m, n);
    DivModUnique(n * 3, 4, 3 * g + (if m == 0 then 0 else m - 1), if m == 0 then 0 else 4 - m);
  }

  /** `acc >> bits` for the counts that occur. */
  function Shr(acc: int, bits: nat): int { if bits == 4 then acc / 16 else if bits == 2 then acc / 4 else acc }

  /** Reading eight bits above the lowest ones waiting gives the byte the new digit completes. */
  lemma ReadByte(u: int, v: int, acc: int)
    requires 0 <= u < 64 && 0 <= v < 64 && acc % 4096 == u * 64 + v
    ensures Shr(acc, 4) % 256 == GroupByte(0, u, v) && Shr(acc, 2) % 256 == GroupByte(1, u, v)
      && Shr(acc, 0) % 256 == GroupByte(2, u, v)
  {
    var k := acc / 4096;
    assert acc == 4096 * k + u * 64 + v;
    DivModUnique(acc, 16, 256 * k + u * 4 + v / 16, v % 16);
    DivModUnique(acc / 16, 256, k, u * 4 + v / 16);
    DivModUnique(acc, 4, 1024 * k + u * 16 + v / 4, v % 4);
    DivModUnique(acc / 4, 256, 4 * k + u / 16, u % 16 * 16 + v / 4);
    DivModUnique(acc, 256, 16 * k + u / 4, u % 4 * 64 + v);
  }

  /** Which byte digit `j` completes, and how many bits stay behind. */
  lemma Completes(j: nat, i: nat)
    requires Waiting(j) + 6 >= 8 && i == Done(j)
    ensures j > 0 && 4 * (i / 3) + i % 3 + 1 == j
    ensures Waiting(j) + 6 - 8 == (if i % 3 == 0 then 4 else if i % 3 == 1 then 2 else 0)
  {
    var g, m := j / 4, j % 4;
    Phase(g, m, j);
    DivModUnique(i, 3, g, m - 1);
  }

  lemma {:induction false} DoneGrows(j: nat, n: nat)
    requires j <= n
    ensures Done(j) <= Done(n)
  {
    if j < n { DoneGrows(j, n - 1); }
  }

  /** The last two digits are in the accumulator's low twelve bits. */
  ghost predicate Holds(acc: int, t: int, u: int) { 0 <= u < 64 && acc % 4096 == t * 64 + u }

  lemma ByteIs(d: seq<int>, i: nat, j: nat)
    requires 0 < j < |d| && i < |d| * 3 / 4 && 4 * (i / 3) + i % 3 + 1 == j
    ensures ToBytes(d)[i] == GroupByte(i % 3, d[j - 1], d[j])
  {
  }

  /** One round of the decoder's loop. */
  lemma DigitStep(d: seq<int>, j: nat, t: int, u: int, acc: int, next: int)
    requires j < |d| && AllBelow(d, 64) && Holds(acc, t, u) && (j > 0 ==> u == d[j - 1])
      && next == Wrap32(acc * 64) + d[j]
    ensures Holds(next, u, d[j])
    ensures Waiting(j) + 6 >= 8 ==> Done(j) < |d| * 3 / 4 && Shr(next, Waiting(j) + 6 - 8) % 256 == ToBytes(d)[Done(j)]
  {
    AccStep(acc, u, d[j], t);
    if Waiting(j) + 6 >= 8 {
      Completes(j, Done(j));
      DoneGrows(j + 1, |d|);
      DoneIsWhole(|d|);
      ReadByte(u, d[j], next);
      ByteIs(d, Done(j), j);
    }
  }

  method FromBase64(s: string) returns (r: Result<seq<int>>)
    ensures r == Decode(s)
  {
    var clean := NoPadding(NoSpace(s));
    if !AllB64(clean) || |clean| % 4 == 1 { return Err; }
    var bytes := FromDigits(Indices(clean));
    return Ok(bytes);
  }

  /** One digit more in the accumulator, and the byte it completes if any. */
  method Feed(d: seq<int>, j: nat, acc: int, bits: nat, ghost t: int, ghost u: int, ghost o: nat, ghost want: seq<int>)
      returns (next: int, left: nat, byte: Option<int>)
    requires j < |d| && AllBelow(d, 64) && Holds(acc, t, u) && (j > 0 ==> u == d[j - 1]) && want == ToBytes(d)
    requires bits == Waiting(j) && o == Done(j)
    ensures Holds(next, u, d[j]) && left == Waiting(j + 1)
    ensures byte.Some? ==> Done(j + 1) == o + 1 && o < |want| && byte.value == want[o]
    ensures byte.None? ==> Done(j + 1) == o
  {
    next := Wrap32(acc * 64) + d[j];
    DigitStep(d, j, t, u, acc, next);
    left, byte := bits + 6, None;
    if left >= 8 {
      left := left - 8;
      byte := Some(Shr(next, left) % 256);
    }
  }

  lemma Sizes(d: seq<int>)
    ensures |ToBytes(d)| == Done(|d|) == |d| * 3 / 4
  {
    DoneIsWhole(|d|);
  }

  /** The decoder's loop. */
  method FromDigits(d: seq<int>) returns (bytes: seq<int>)
    requires AllBelow(d, 64)
    ensures bytes == ToBytes(d)
  {
    Sizes(d);
    bytes := FromDigitsInto(d, |d| * 3 / 4, ToBytes(d));
  }

  /** The decoder before digit `j`, with `t` and `u` the last two digits. */
  ghost predicate Decoding(d: seq<int>, j: nat, acc: int, bits: nat, o: nat, t: int, u: int) {
    j <= |d| && Holds(acc, t, u) && (j > 0 ==> u == d[j - 1]) && bits == Waiting(j) && o == Done(j)
  }

  /** One round of the decoder's loop: the byte the digit completes, if any, goes into the buffer. */
  method FeedInto(out: array<int>, d: seq<int>, j: nat, acc: int, bits: nat, o: nat, ghost t: int, ghost u: int,
                  ghost want: seq<int>) returns (next: int, left: nat, at: nat)
    requires AllBelow(d, 64) && want == ToBytes(d) && out.Length == |want|
    requires j < |d| && Decoding(d, j, acc, bits, o, t, u) && o <= out.Length && out[..o] == want[..o]
    modifies out
    ensures Decoding(d, j + 1, next, left, at, u, d[j]) && at <= out.Length && out[..at] == want[..at]
  {
    var byte: Option<int>;
    next, left, byte := Feed(d, j, acc, bits, t, u, o, want);
    at := o;
    if byte.Some? {
      out[at] := byte.value;
      at := at + 1;
    }
  }

  method FromDigitsInto(d: seq<int>, length: nat, ghost want: seq<int>) returns (bytes: seq<int>)
    requires AllBelow(d, 64) && length == |want| == Done(|d|) && want == ToBytes(d)
    ensures bytes == want
  {
    var out := new int[length](_ => 0);
    ghost var u, t := 0, 0;
    var bits: nat, acc, o: nat := 0, 0, 0;
    for j := 0 to |d|
      invariant Decoding(d, j, acc, bits, o, t, u) && o <= out.Length && out[..o] == want[..o]
    {
      acc, bits, o := FeedInto(out, d, j, acc, bits, o, t, u, want);
      u, t := d[j], u;
    }
    bytes := out[..];
  }

  // ---- Round trip ----

  lemma {:induction false} WithoutSame(s: string, drop: char -> bool)
    requires forall k :: 0 <= k < |s| ==> !drop(s[k])
    ensures Without(s, drop) == s
  {
    if s != "" { WithoutSame(s[1..], drop); }
  }

  lemma {:induction false} NoPaddingStrips(s: string, n: nat)
    requires n <= |s| && AllB64(s[..n]) && forall k :: n <= k < |s| ==> s[k] == '='
    ensures NoPadding(s) == s[..n]
  {
    if n < |s| {
      NoPaddingStrips(s[..|s| - 1], n);
      assert s[..|s| - 1][..n] == s[..n];
    } else {
      assert s[..n] == s;
      assert s != "" ==> IsB64(s[..n][n - 1]);
    }
  }

  lemma GroupBack(b: seq<int>, i: nat, m: nat)
    requires AreBytes(b) && m < 3
    ensures GroupByte(m, GroupDigit(b, i, m), GroupDigit(b, i, m + 1)) == At(b, i + m)
  {
    GroupRoundTrip(At(b, i), At(b, i + 1), At(b, i + 2));
  }

  lemma ByteBack(b: seq<int>, d: seq<int>, i: nat, g: nat, m: nat)
    requires AreBytes(b) && i == 3 * g + m < |b| && m < 3 && |d| == DigitCount(|b|) && forall k :: 0 <= k < |d| ==>
      d[k] == DigitAt(b, k)
    ensures ByteAt(d, i) == b[i]
  {
    DivModUnique(i, 3, g, m);
    CountOf(|b|, g, m + 1);
    PlaceOf(b, g, m);
    PlaceOf(b, g, m + 1);
    GroupBack(b, 3 * g, m);
  }

  lemma Counts(n: nat)
    ensures DigitCount(n) * 3 / 4 == n && DigitCount(n) % 4 != 1 && DigitCount(n) <= (n + 2) / 3 * 4
  {
  }

  lemma BytesBack(b: seq<int>, d: seq<int>)
    requires AreBytes(b) && |d| == DigitCount(|b|) && forall k :: 0 <= k < |d| ==> d[k] == DigitAt(b, k)
    ensures ToBytes(d) == b
  {
    Counts(|b|);
    forall i | 0 <= i < |b| ensures ToBytes(d)[i] == b[i] { ByteBack(b, d, i, i / 3, i % 3); }
  }

  /** Decoding what was encoded gives back the bytes, for every byte string. */
  lemma RoundTrip(b: seq<int>)
    requires AreBytes(b)
    ensures Decode(Encode(b)) == Ok(b)
  {
    var e, n := Encode(b), DigitCount(|b|);
    Counts(|b|);
    WithoutSame(e, IsSpace);
    NoPaddingStrips(e, n);
    var d := Indices(e[..n]);
    forall k | 0 <= k < n ensures d[k] == DigitAt(b, k) { DigitOk(b, k); }
    BytesBack(b, d);
  }

  lemma WithoutHead(s: string, drop: char -> bool, rest: string, head: string)
    requires s != "" && rest == s[1..] && head == if drop(s[0]) then "" else [s[0]]
    ensures Without(s, drop) == head + Without(rest, drop)
  {
  }

  lemma Associates(x: string, y: string, z: string)
    ensures x + (y + z) == x + y + z
  {
  }

  lemma {:induction false} WithoutConcat(a: string, b: string, drop: char -> bool)
    ensures Without(a + b, drop) == Without(a, drop) + Without(b, drop)
  {
    if a == "" {
      assert a + b == b;
    } else {
      var rest, head := a[1..], if drop(a[0]) then "" else [a[0]];
      WithoutConcat(rest, b, drop);
      WithoutHead(a + b, drop, rest + b, head);
      WithoutHead(a, drop, rest, head);
      Associates(head, Without(rest, drop), Without(b, drop));
    }
  }

  lemma WithoutMiddle(a: string, c: char, b: string, drop: char -> bool)
    requires drop(c)
    ensures Without(a + [c] + b, drop) == Without(a + b, drop)
  {
    WithoutConcat(a + [c], b, drop);
    WithoutConcat(a, [c], drop);
    WithoutConcat(a, b, drop);
    assert [c][1..] == "";
  }

  lemma SameDecode(s: string, t: string)
    requires NoPadding(NoSpace(s)) == NoPadding(NoSpace(t))
    ensures Decode(s) == Decode(t)
  {
  }

  /** White space anywhere changes nothing. */
  lemma DecodeIgnoresSpace(a: string, c: char, b: string)
    requires c == ' ' || c == '\t' || c == '\r' || c == '\n' || c == '\U{00A0}' || c == '\U{FEFF}'
    ensures Decode(a + [c] + b) == Decode(a + b)
  {
    WithoutMiddle(a, c, b, IsSpace);
    SameDecode(a + [c] + b, a + b);
  }

  lemma WithoutLast(s: string, c: char, drop: char -> bool)
    requires !drop(c)
    ensures Without(s + [c], drop) == Without(s, drop) + [c]
  {
    WithoutConcat(s, [c], drop);
    assert [c][1..] == "";
  }

  lemma OnePad(t: string)
    ensures NoPadding(t + ['=']) == NoPadding(t)
  {
    assert (t + ['='])[..|t|] == t;
  }

  /** Padding at the end may be left out or added. */
  lemma DecodeIgnoresPadding(s: string)
    ensures Decode(s + ['=']) == Decode(s)
  {
    WithoutLast(s, '=', IsSpace);
    OnePad(NoSpace(s));
    SameDecode(s + ['='], s);
  }
}
