/** Text order and decimal numerals shared by the timestamp, token and file-name models. */
module Text {

  /** Lexicographic order by code point: Python's `<` on `str` and SQLite's BINARY collation. */
  predicate Less(a: string, b: string) {
    |b| > 0 && (|a| == 0 || a[0] < b[0] || (a[0] == b[0] && Less(a[1..], b[1..])))
  }

  predicate LessEq(a: string, b: string) {
    a == b || Less(a, b)
  }

  lemma {:induction false} LessIrreflexive(a: string)
    ensures !Less(a, a)
  {
    if a != "" {
      LessIrreflexive(a[1..]);
    }
  }

  lemma {:induction false} LessTotal(a: string, b: string)
    ensures Less(a, b) || a == b || Less(b, a)
  {
    if a != "" && b != "" && a[0] == b[0] {
      LessTotal(a[1..], b[1..]);
      assert a == [a[0]] + a[1..] && b == [b[0]] + b[1..];
    }
  }

  lemma {:induction false} LessTransitive(a: string, b: string, c: string)
    requires Less(a, b) && Less(b, c)
    ensures Less(a, c)
  {
    if a != "" && a[0] == b[0] == c[0] {
      LessTransitive(a[1..], b[1..], c[1..]);
    }
  }

  lemma LessEqTransitive(a: string, b: string, c: string)
    requires LessEq(a, b) && LessEq(b, c)
    ensures LessEq(a, c)
  {
    if a != b && b != c {
      LessTransitive(a, b, c);
    }
  }

  /** Equal-length heads are compared first; the tails decide only when the heads are equal. */
  lemma {:induction false} LessConcat(a: string, b: string, c: string, d: string)
    requires |a| == |c|
    ensures Less(a + b, c + d) <==> Less(a, c) || (a == c && Less(b, d))
  {
    if a == "" {
      assert a + b == b && c + d == d;
    } else {
      assert (a + b)[1..] == a[1..] + b && (c + d)[1..] == c[1..] + d;
      assert a == [a[0]] + a[1..] && c == [c[0]] + c[1..];
      LessConcat(a[1..], b, c[1..], d);
      assert a == c <==> a[0] == c[0] && a[1..] == c[1..];
    }
  }

  const DIGITS := "0123456789"

  predicate IsDigit(c: char) {
    '0' <= c <= '9'
  }

  function DigitValue(c: char): (v: nat)
    requires IsDigit(c)
    ensures v < 10 && DIGITS[v] == c
  {
    var v := c as int - '0' as int;
    assert DIGITS[v] == c by { DigitTable(v); }
    v
  }

  lemma DigitTable(v: nat)
    requires v < 10
    ensures DIGITS[v] as int == '0' as int + v
  {
  }

  function Pow10(w: nat): (p: nat)
    ensures p > 0
  {
    if w == 0 then 1 else 10 * Pow10(w - 1)
  }

  /** Zero-padded decimal of width `w`: the `%0wd` conversion for values that fit. */
  function Padded(n: nat, w: nat): (s: string)
    ensures |s| == w
    ensures forall c | c in s :: IsDigit(c)
  {
    if w == 0 then "" else
      DigitTable(n % 10);
      Padded(n / 10, w - 1) + [DIGITS[n % 10]]
  }

  /** On equal widths, text order of padded numerals is numeric order. */
  lemma {:induction false} PaddedOrder(n: nat, m: nat, w: nat)
    requires n < Pow10(w) && m < Pow10(w)
    ensures Less(Padded(n, w), Padded(m, w)) <==> n < m
    ensures Padded(n, w) == Padded(m, w) <==> n == m
  {
    if w > 0 {
      PaddedOrder(n / 10, m / 10, w - 1);
      var (a, b) := (Padded(n / 10, w - 1), [DIGITS[n % 10]]);
      var (c, d) := (Padded(m / 10, w - 1), [DIGITS[m % 10]]);
      LessConcat(a, b, c, d);
      DigitTable(n % 10);
      DigitTable(m % 10);
      assert Less(b, d) <==> n % 10 < m % 10;
      assert a + b == c + d <==> a == c && b == d by {
        assert (a + b)[..w - 1] == a && (a + b)[w - 1..] == b;
        assert (c + d)[..w - 1] == c && (c + d)[w - 1..] == d;
      }
      assert b == d <==> n % 10 == m % 10 by { assert b == d ==> b[0] == d[0]; }
    }
  }

  /** Shortest decimal of a natural number: `str(n)`. */
  function NatText(n: nat): (s: string)
    ensures |s| > 0
    ensures forall c | c in s :: IsDigit(c)
  {
    DigitTable(n % 10);
    if n < 10 then [DIGITS[n]] else NatText(n / 10) + [DIGITS[n % 10]]
  }

  /** `str(n)` of a Python integer. */
  function IntText(n: int): (s: string)
    ensures |s| > 0
    ensures forall c | c in s :: IsDigit(c) || c == '-'
  {
    if n < 0 then "-" + NatText(-n) else NatText(n)
  }

  /** The value of a digit string read most significant digit first. */
  function DigitsValue(s: string): nat
    requires forall c | c in s :: IsDigit(c)
  {
    if s == "" then 0 else 10 * DigitsValue(s[..|s| - 1]) + DigitValue(s[|s| - 1])
  }

  lemma {:induction false} DigitsValueOfNatText(n: nat)
    ensures DigitsValue(NatText(n)) == n
  {
    DigitTable(n % 10);
    if n < 10 {
      assert NatText(n)[..0] == "";
      assert DigitsValue("") == 0;
    } else {
      var s := NatText(n);
      assert s[..|s| - 1] == NatText(n / 10);
      DigitsValueOfNatText(n / 10);
    }
  }

  /** Every numeral for `n <= m` is at most as long as the one for `m`. */
  lemma {:induction false} NatTextLengthMonotone(n: nat, m: nat)
    requires n <= m
    ensures |NatText(n)| <= |NatText(m)|
  {
    if m >= 10 && n >= 10 {
      NatTextLengthMonotone(n / 10, m / 10);
    }
  }

  lemma {:induction false} NatTextFits(n: nat)
    ensures n < Pow10(|NatText(n)|)
  {
    if n < 10 {
      assert Pow10(1) == 10 * Pow10(0);
    } else {
      NatTextFits(n / 10);
    }
  }
}
