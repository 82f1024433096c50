// Strings as the modelled programs use them: ASCII case mapping, the code-unit
// order of JavaScript's `<`, and decimal numerals.
module Text {

  function LowerChar(c: char): char {
    if 'A' <= c <= 'Z' then 'a' + (c - 'A') else c
  }

  function Lower(s: string): (l: string)
    ensures |l| == |s|
    ensures forall i :: 0 <= i < |s| ==> l[i] == LowerChar(s[i])
  {
    seq(|s|, i requires 0 <= i < |s| => LowerChar(s[i]))
  }

  lemma LowerIdempotent(s: string)
    ensures Lower(Lower(s)) == Lower(s)
  {
  }

  // ----- code-unit order -----

  // JavaScript `a <= b` on strings of the Basic Multilingual Plane, whose characters are code units.
  predicate AtMost(a: string, b: string) {
    if a == [] then true
    else if b == [] then false
    else if a[0] == b[0] then AtMost(a[1..], b[1..])
    else a[0] < b[0]
  }

  lemma AtMostTotal(a: string, b: string)
    ensures AtMost(a, b) || AtMost(b, a)
  {
  }

  lemma AtMostAntisymmetric(a: string, b: string)
    requires AtMost(a, b) && AtMost(b, a)
    ensures a == b
  {
    if a != [] && b != [] {
      AtMostAntisymmetric(a[1..], b[1..]);
      assert a == [a[0]] + a[1..] && b == [b[0]] + b[1..];
    }
  }

  lemma AtMostTransitive(a: string, b: string, c: string)
    requires AtMost(a, b) && AtMost(b, c)
    ensures AtMost(a, c)
  {
  }

  // ----- decimal numerals -----

  predicate IsDigit(c: char) {
    '0' <= c <= '9'
  }

  predicate AllDigits(s: string) {
    forall i :: 0 <= i < |s| ==> IsDigit(s[i])
  }

  function DigitChar(d: nat): (c: char)
    requires d < 10
    ensures IsDigit(c) && DigitValue(c) == d
  {
    '0' + (d as char)
  }

  function DigitValue(c: char): nat
    requires IsDigit(c)
  {
    (c - '0') as nat
  }

  // Number.parseInt(s, 10) on a string of digits.
  function ParseNat(s: string): nat
    requires AllDigits(s)
  {
    if s == [] then 0 else 10 * ParseNat(s[..|s| - 1]) + DigitValue(s[|s| - 1])
  }

  // String(n) for a non-negative integer: no leading zero.
  function ShowNat(n: nat): (s: string)
    ensures s != [] && AllDigits(s)
    ensures s[0] == '0' ==> n == 0
  {
    if n < 10 then [DigitChar(n)] else ShowNat(n / 10) + [DigitChar(n % 10)]
  }

  lemma {:induction false} ParseShow(n: nat)
    ensures ParseNat(ShowNat(n)) == n
  {
    if n < 10 {
      assert ShowNat(n)[..0] == [];
    } else {
      ParseShow(n / 10);
      assert ShowNat(n)[..|ShowNat(n)| - 1] == ShowNat(n / 10);
    }
  }

  function Zeros(k: nat): (z: string)
    ensures |z| == k && AllDigits(z)
    ensures forall i :: 0 <= i < k ==> z[i] == '0'
  {
    seq(k, _ => '0')
  }

  // s.padStart(width, '0')
  function PadStart(s: string, width: nat): (p: string)
    ensures |p| == if |s| < width then width else |s|
    ensures AllDigits(s) ==> AllDigits(p)
  {
    if |s| < width then Zeros(width - |s|) + s else s
  }

  lemma {:induction false} ParseZeros(k: nat, s: string)
    requires AllDigits(s)
    ensures AllDigits(Zeros(k) + s) && ParseNat(Zeros(k) + s) == ParseNat(s)
  {
    var z := Zeros(k) + s;
    if s != [] {
      ParseZeros(k, s[..|s| - 1]);
      assert z[..|z| - 1] == Zeros(k) + s[..|s| - 1];
    } else if k > 0 {
      ParseZeros(k - 1, []);
      assert z[..|z| - 1] == Zeros(k - 1) + [];
    }
  }

  lemma ParsePad(n: nat, width: nat)
    ensures AllDigits(PadStart(ShowNat(n), width))
    ensures ParseNat(PadStart(ShowNat(n), width)) == n
  {
    ParseShow(n);
    if |ShowNat(n)| < width {
      ParseZeros(width - |ShowNat(n)|, ShowNat(n));
    }
  }

  function Pow10(k: nat): (p: nat)
    ensures p >= 1
  {
    if k == 0 then 1 else 10 * Pow10(k - 1)
  }

  // A numeral of k digits is below 10^k, and String(n) is the shortest that fits.
  lemma {:induction false} ParseBound(s: string)
    requires AllDigits(s)
    ensures ParseNat(s) < Pow10(|s|)
  {
    if s != [] {
      ParseBound(s[..|s| - 1]);
    }
  }

  lemma {:induction false} ShowFits(n: nat, k: nat)
    requires k > 0
    ensures |ShowNat(n)| <= k <==> n < Pow10(k)
  {
    if n < 10 {
      assert Pow10(k) == 10 * Pow10(k - 1);
    } else if k == 1 {
      assert Pow10(1) == 10 * Pow10(0);
    } else {
      ShowFits(n / 10, k - 1);
    }
  }

  // Equal-width numerals: the string order is the numeric order.
  lemma {:induction false} DigitsInjective(a: string, b: string)
    requires AllDigits(a) && AllDigits(b) && |a| == |b|
    requires ParseNat(a) == ParseNat(b)
    ensures a == b
  {
    if a != [] {
      DigitsInjective(a[..|a| - 1], b[..|b| - 1]);
      assert a == a[..|a| - 1] + [a[|a| - 1]] && b == b[..|b| - 1] + [b[|b| - 1]];
    }
  }

  lemma {:induction false} AtMostSnoc(a: string, b: string)
    requires |a| == |b| > 0
    ensures AtMost(a, b) <==>
            if a[..|a| - 1] == b[..|b| - 1] then a[|a| - 1] <= b[|b| - 1] else AtMost(a[..|a| - 1], b[..|b| - 1])
  {
    if |a| > 1 {
      AtMostSnoc(a[1..], b[1..]);
      assert a[1..][..|a| - 2] == a[..|a| - 1][1..] && b[1..][..|b| - 2] == b[..|b| - 1][1..];
      assert a[..|a| - 1] == [a[0]] + a[1..|a| - 1] && b[..|b| - 1] == [b[0]] + b[1..|b| - 1];
    }
  }

  lemma {:induction false} DigitsOrder(a: string, b: string)
    requires AllDigits(a) && AllDigits(b) && |a| == |b|
    ensures AtMost(a, b) <==> ParseNat(a) <= ParseNat(b)
  {
    if a != [] {
      var x, y := a[..|a| - 1], b[..|b| - 1];
      AtMostSnoc(a, b);
      DigitsOrder(x, y);
      if ParseNat(x) == ParseNat(y) {
        DigitsInjective(x, y);
      }
    }
  }

  // s.startsWith(prefix)
  predicate BeginsWith(s: string, prefix: string) {
    |prefix| <= |s| && s[..|prefix|] == prefix
  }

  // s.includes(part)
  predicate Includes(s: string, part: string) {
    exists k :: 0 <= k <= |s| && BeginsWith(s[k..], part)
  }

  // ----- lowercase hexadecimal -----

  predicate IsHexChar(c: char) {
    '0' <= c <= '9' || 'a' <= c <= 'f'
  }

  function Nibble(c: char): (n: nat)
    requires IsHexChar(c)
    ensures n < 16
  {
    if c <= '9' then (c - '0') as nat else (c - 'a') as nat + 10
  }

  function HexChar(n: nat): (c: char)
    requires n < 16
    ensures IsHexChar(c) && Nibble(c) == n
  {
    if n < 10 then '0' + (n as char) else 'a' + ((n - 10) as char)
  }
}
