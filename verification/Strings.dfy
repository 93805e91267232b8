/** Strings as the source compares and prints them: `<` on strings, and decimal numerals. */
module Strings {
  /** The order of strings: the first differing character decides, a proper prefix comes first. */
  predicate Less(a: string, b: string) {
    if b == "" then false
    else if a == "" then true
    else a[0] < b[0] || (a[0] == b[0] && Less(a[1..], b[1..]))
  }

  lemma {:induction false} LessConcat(a: string, b: string, x: string, y: string)
    requires |a| == |b|
    ensures Less(a + x, b + y) <==> Less(a, b) || (a == b && Less(x, y))
  {
    if a == "" {
      assert a + x == x && b + y == y;
    } else {
      LessConcat(a[1..], b[1..], x, y);
      assert (a + x)[1..] == a[1..] + x && (b + y)[1..] == b[1..] + y;
    }
  }

  lemma LessPair(a: char, b: char, x: string, y: string)
    ensures Less([a] + x, [b] + y) <==> a < b || (a == b && Less(x, y))
  {
    assert ([a] + x)[1..] == x && ([b] + y)[1..] == y;
  }

  lemma {:induction false} Irreflexive(p: string)
    ensures !Less(p, p)
  {
    if p != "" {
      Irreflexive(p[1..]);
    }
  }

  lemma {:induction false} LessTotal(a: string, b: string)
    ensures Less(a, b) || a == b || Less(b, a)
  {
    if a != "" && b != "" && a[0] == b[0] {
      LessTotal(a[1..], b[1..]);
      assert a == [a[0]] + a[1..] && b == [b[0]] + b[1..];
    }
  }

  lemma {:induction false} LessTransitive(a: string, b: string, c: string)
    requires Less(a, b) && Less(b, c)
    ensures Less(a, c)
  {
    if a != "" && a[0] == b[0] && b[0] == c[0] {
      LessTransitive(a[1..], b[1..], c[1..]);
    }
  }

  // ----- Numerals -----

  const DIGITS := "0123456789"

  function Decimal(n: nat): string {
    if n < 10 then [DIGITS[n]] else Decimal(n / 10) + [DIGITS[n % 10]]
  }

  predicate IsDigit(c: char) {
    '0' <= c <= '9'
  }

  lemma DigitsDiffer(i: nat, j: nat)
    requires i < 10 && j < 10
    ensures IsDigit(DIGITS[i]) && (DIGITS[i] == DIGITS[j] <==> i == j)
  {
    assert forall k: nat :: k < 10 ==> DIGITS[k] as int == '0' as int + k;
  }

  lemma {:induction false} DecimalDigits(n: nat)
    ensures Decimal(n) != "" && forall i :: 0 <= i < |Decimal(n)| ==> IsDigit(Decimal(n)[i])
  {
    DigitsDiffer(n % 10, 0);
    if n >= 10 {
      DecimalDigits(n / 10);
    }
  }

  lemma {:induction false} DecimalInjective(m: nat, n: nat)
    requires Decimal(m) == Decimal(n)
    ensures m == n
  {
    DecimalLast(m);
    DecimalLast(n);
    DigitsDiffer(m % 10, n % 10);
    if m >= 10 && n >= 10 {
      assert Decimal(m)[..|Decimal(m)| - 1] == Decimal(m / 10) && Decimal(n)[..|Decimal(n)| - 1] == Decimal(n / 10);
      DecimalInjective(m / 10, n / 10);
    }
  }

  lemma DecimalLast(n: nat)
    ensures Decimal(n) != "" && Decimal(n)[|Decimal(n)| - 1] == DIGITS[n % 10]
    ensures |Decimal(n)| == 1 <==> n < 10
  {
    if n >= 10 {
      DecimalDigits(n / 10);
    }
  }

  predicate StartsWithDigit(s: string) {
    s != "" && IsDigit(s[0])
  }

  /** A numeral followed by something other than a digit is read in one way. */
  lemma DecimalRead(m: nat, n: nat, r: string, s: string)
    requires Decimal(m) + r == Decimal(n) + s && !StartsWithDigit(r) && !StartsWithDigit(s)
    ensures m == n && r == s
  {
    var a, b := Decimal(m), Decimal(n);
    DecimalDigits(m);
    DecimalDigits(n);
    LongerNumeral(a, b, r, s);
    LongerNumeral(b, a, s, r);
    assert a == (a + r)[..|a|] && b == (b + s)[..|b|];
    assert r == (a + r)[|a|..] && s == (b + s)[|b|..];
    DecimalInjective(m, n);
  }

  lemma LongerNumeral(a: string, b: string, r: string, s: string)
    requires a + r == b + s && forall i :: 0 <= i < |b| ==> IsDigit(b[i])
    ensures |a| < |b| ==> StartsWithDigit(r)
  {
    if |a| < |b| {
      assert (b + s)[|a|] == b[|a|] && (a + r)[|a|] == r[0];
    }
  }
}
