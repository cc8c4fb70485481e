/** `Number.prototype.toString(radix)` on integers, and the value a digit string denotes. */
module Numerals {
  import opened Text

  function Pow(b: nat, k: nat): (r: nat)
    ensures b >= 1 ==> r >= 1
  {
    if k == 0 then 1 else b * Pow(b, k - 1)
  }

  /** The digit character JavaScript writes for `d`: `0`-`9`, then lower-case `a`-`f`. */
  function DigitChar(d: nat): char
    requires d < 16
  {
    if d < 10 then ('0' as int + d) as char else ('a' as int + d - 10) as char
  }

  /** The value of a digit character in either case; 0 for any other character. */
  function DigitValue(c: char): nat {
    if '0' <= c <= '9' then c as int - '0' as int
    else if 'a' <= c <= 'f' then c as int - 'a' as int + 10
    else if 'A' <= c <= 'F' then c as int - 'A' as int + 10
    else 0
  }

  /** `n.toString(base)` for a non-negative integer: the shortest digit string, no leading zeros. */
  function ToRadix(n: nat, base: nat): (s: string)
    requires 2 <= base <= 16
    ensures |s| >= 1
    decreases n
  {
    if n < base then [DigitChar(n)] else ToRadix(n / base, base) + [DigitChar(n % base)]
  }

  /** The number a digit string denotes in `base`, most significant digit first. */
  function Value(s: string, base: nat): nat {
    if s == [] then 0 else Value(s[..|s| - 1], base) * base + DigitValue(s[|s| - 1])
  }

  predicate IsUpperHexDigit(c: char) {
    '0' <= c <= '9' || 'A' <= c <= 'F'
  }

  predicate IsDecimalDigit(c: char) {
    '0' <= c <= '9'
  }

  /** A decimal literal as `toString()` writes one: an optional `-`, then digits without a leading zero. */
  predicate IsCanonicalDecimal(s: string) {
    var digits := if |s| > 0 && s[0] == '-' then s[1..] else s;
    |digits| > 0 && (forall i :: 0 <= i < |digits| ==> IsDecimalDigit(digits[i]))
    && (digits[0] == '0' ==> s == "0")
  }

  /** The value of a decimal literal with an optional leading `-`. */
  function SignedValue(s: string): int {
    if |s| > 0 && s[0] == '-' then -(Value(s[1..], 10) as int) else Value(s, 10)
  }

  /** `i.toString()` for any integer. */
  function Decimal(i: int): string {
    if i < 0 then "-" + ToRadix(-i, 10) else ToRadix(i, 10)
  }

  /** Reading back what `toString(base)` wrote gives the number again. */
  lemma {:induction false} ValueOfRadix(n: nat, base: nat)
    requires 2 <= base <= 16
    ensures Value(ToRadix(n, base), base) == n
    decreases n
  {
    if n < base {
      DigitRoundTrip(n);
      ValueSnoc([], DigitChar(n), base);
      assert [] + [DigitChar(n)] == ToRadix(n, base);
    } else {
      var q, d := n / base, n % base;
      DivLess(n, base);
      DigitRoundTrip(d);
      ValueOfRadix(q, base);
      ValueSnoc(ToRadix(q, base), DigitChar(d), base);
      DivMod(n, base);
    }
  }

  lemma ValueSnoc(t: string, c: char, base: nat)
    ensures Value(t + [c], base) == Value(t, base) * base + DigitValue(c)
  {
    assert (t + [c])[..|t|] == t;
  }

  /** Dividing by a base of at least 2 strictly decreases a number that is at least the base. */
  lemma DivLess(n: nat, b: nat)
    requires 2 <= b <= n
    ensures 1 <= n / b < n
  {
    var q := n / b;
    assert n == q * b + n % b;
    assert q * b == q * 2 + q * (b - 2);
    assert q * (b - 2) >= 0;
  }

  lemma DivMod(n: nat, b: nat)
    requires b > 0
    ensures n == (n / b) * b + n % b
  {
  }

  lemma DigitRoundTrip(d: nat)
    requires d < 16
    ensures DigitValue(DigitChar(d)) == d
  {
  }

  /** `toString(base)` writes only digits below `base`, and no leading zero unless the number is 0. */
  lemma {:induction false} RadixDigits(n: nat, base: nat)
    requires 2 <= base <= 16
    ensures var s := ToRadix(n, base);
      (forall i :: 0 <= i < |s| ==> ('0' <= s[i] <= '9' || 'a' <= s[i] <= 'f') && DigitValue(s[i]) < base)
      && (n > 0 ==> s[0] != '0')
    decreases n
  {
    var s := ToRadix(n, base);
    if n >= base {
      DivLess(n, base);
      RadixDigits(n / base, base);
      assert s == ToRadix(n / base, base) + [DigitChar(n % base)];
    }
  }

  lemma DivBound(n: nat, b: nat, p: nat)
    requires b > 0
    ensures n / b < p <==> n < b * p
  {
    if n / b < p {
      assert n == b * (n / b) + n % b;
      assert b * (n / b) <= b * (p - 1);
    } else {
      assert n == b * (n / b) + n % b;
      assert b * (n / b) >= b * p;
    }
  }

  /** `toString(base)` writes at most `k` digits exactly when the number is below `base^k`. */
  lemma {:induction false} RadixLength(n: nat, base: nat, k: nat)
    requires 2 <= base <= 16 && k >= 1
    ensures |ToRadix(n, base)| <= k <==> n < Pow(base, k)
    decreases n
  {
    if n < base {
      PowAtLeastBase(base, k);
    } else if k == 1 {
    } else {
      DivLess(n, base);
      RadixLength(n / base, base, k - 1);
      DivBound(n, base, Pow(base, k - 1));
    }
  }

  lemma {:induction false} PowAtLeastBase(b: nat, k: nat)
    requires b >= 1 && k >= 1
    ensures Pow(b, k) >= b
  {
    if k > 1 {
      PowAtLeastBase(b, k - 1);
      assert b * Pow(b, k - 1) >= b * 1;
    }
  }

  lemma ModUnique(x: int, m: int, q: int, r: int)
    requires m > 0 && x == q * m + r && 0 <= r < m
    ensures x % m == r
  {
    var q', r' := x / m, x % m;
    assert x == q' * m + r';
    assert (q - q') * m == r' - r by {
      assert q * m - q' * m == (q - q') * m;
    }
    if q > q' {
      MulAtLeast(q - q', m);
    } else if q < q' {
      MulAtLeast(q' - q, m);
    }
  }

  lemma MulAtLeast(k: int, m: int)
    requires k >= 1 && m > 0
    ensures k * m >= m
  {
    assert k * m == (k - 1) * m + m;
    assert (k - 1) * m >= 0;
  }

  lemma ModShift(a: nat, b: nat, d: nat, m: nat)
    requires b > 0 && m > 0 && d < b
    ensures (a * b + d) % (b * m) == (a % m) * b + d
  {
    var q, r := a / m, a % m;
    assert a == q * m + r;
    assert a * b + d == q * (b * m) + (r * b + d);
    assert r * b + d < b * m by {
      assert r <= m - 1;
      assert r * b <= (m - 1) * b;
    }
    ModUnique(a * b + d, b * m, q, r * b + d);
  }

  /** The last `k` digits of a digit string denote its value modulo `base^k`. */
  lemma {:induction false} ValueOfSuffix(s: string, base: nat, k: nat)
    requires base >= 2 && k <= |s|
    requires forall i :: 0 <= i < |s| ==> DigitValue(s[i]) < base
    ensures Value(s[|s| - k..], base) == Value(s, base) % Pow(base, k)
    decreases k
  {
    if k == 0 {
      assert s[|s|..] == [];
    } else {
      var t := s[..|s| - 1];
      var d := DigitValue(s[|s| - 1]);
      ValueOfSuffix(t, base, k - 1);
      var suffix := s[|s| - k..];
      assert suffix[..|suffix| - 1] == t[|t| - (k - 1)..];
      assert suffix[|suffix| - 1] == s[|s| - 1];
      ModShift(Value(t, base), base, d, Pow(base, k - 1));
    }
  }

  /** Leading `'0'` characters do not change the value. */
  lemma {:induction false} ValueOfZeroPadded(z: string, s: string, base: nat)
    requires forall i :: 0 <= i < |z| ==> z[i] == '0'
    ensures Value(z + s, base) == Value(s, base)
    decreases |s|
  {
    if s == [] {
      assert z + s == z;
      ValueOfZeros(z, base);
    } else {
      var t := s[..|s| - 1];
      assert (z + s)[..|z + s| - 1] == z + t;
      ValueOfZeroPadded(z, t, base);
    }
  }

  lemma {:induction false} ValueOfZeros(z: string, base: nat)
    requires forall i :: 0 <= i < |z| ==> z[i] == '0'
    ensures Value(z, base) == 0
    decreases |z|
  {
    if z != [] {
      ValueOfZeros(z[..|z| - 1], base);
    }
  }

  /** Changing the case of the letters of a digit string does not change its value. */
  lemma {:induction false} ValueOfUpper(s: string, base: nat)
    ensures Value(ToUpper(s), base) == Value(s, base)
    decreases |s|
  {
    if s != [] {
      var u := ToUpper(s);
      assert u[..|u| - 1] == ToUpper(s[..|s| - 1]);
      ValueOfUpper(s[..|s| - 1], base);
    }
  }

  /** `Decimal` writes the canonical literal of the number, and reading it back gives the number. */
  lemma DecimalRoundTrip(i: int)
    ensures IsCanonicalDecimal(Decimal(i)) && SignedValue(Decimal(i)) == i
  {
    var n: nat := if i < 0 then -i else i;
    ValueOfRadix(n, 10);
    RadixDigits(n, 10);
    var s := Decimal(i);
    var digits := if |s| > 0 && s[0] == '-' then s[1..] else s;
    assert digits == ToRadix(n, 10);
    assert forall k :: 0 <= k < |digits| ==> IsDecimalDigit(digits[k]);
  }
}
