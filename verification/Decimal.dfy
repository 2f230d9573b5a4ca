/** Decimal spelling of natural numbers. */
module Decimal {
  import opened StringOrder

  function Digit(d: nat): char
    requires d < 10
  {
    ('0' as int + d) as char
  }

  predicate IsDigit(c: char) {
    '0' <= c <= '9'
  }

  function Digits(n: nat): string {
    if n < 10 then [Digit(n)] else Digits(n / 10) + [Digit(n % 10)]
  }

  predicate AllDigits(s: string) {
    forall i | 0 <= i < |s| :: IsDigit(s[i])
  }

  function ValueOf(s: string): int {
    if s == "" then 0 else ValueOf(s[..|s| - 1]) * 10 + (s[|s| - 1] as int - '0' as int)
  }

  lemma {:induction false} DigitsSpell(n: nat)
    ensures |Digits(n)| > 0 && ValueOf(Digits(n)) == n && AllDigits(Digits(n))
  {
    if n < 10 {
      assert Digits(n)[..0] == "";
      assert ValueOf(Digits(n)) == ValueOf("") * 10 + n;
    } else {
      DigitsSpell(n / 10);
      assert Digits(n)[..|Digits(n)| - 1] == Digits(n / 10);
    }
  }

  lemma DigitsInjective(n: nat, m: nat)
    requires Digits(n) == Digits(m)
    ensures n == m
  {
    DigitsSpell(n);
    DigitsSpell(m);
  }

  /** `n` in exactly `width` digits, zero-padded. */
  function Padded(n: nat, width: nat): string {
    if width == 0 then "" else Padded(n / 10, width - 1) + [Digit(n % 10)]
  }

  function Power(width: nat): nat {
    if width == 0 then 1 else 10 * Power(width - 1)
  }

  lemma {:induction false} PaddedSpells(n: nat, width: nat)
    requires n < Power(width)
    ensures |Padded(n, width)| == width && ValueOf(Padded(n, width)) == n && AllDigits(Padded(n, width))
  {
    if width > 0 {
      PaddedSpells(n / 10, width - 1);
      assert Padded(n, width)[..width - 1] == Padded(n / 10, width - 1);
    }
  }

  /** Without a leading zero to add, padding changes nothing. */
  lemma {:induction false} PaddedIsDigits(n: nat, width: nat)
    requires width > 0 && (width > 1 ==> Power(width - 1) <= n) && n < Power(width)
    ensures Padded(n, width) == Digits(n)
  {
    if width == 1 {
      assert Padded(n / 10, 0) == "";
    } else {
      PaddedIsDigits(n / 10, width - 1);
    }
  }

  // ---- digit strings of one length compare like numbers ----

  lemma {:induction false} BelowByParts(a: string, b: string, r: string, t: string)
    requires |a| == |b|
    ensures Below(a + r, b + t) <==> if a == b then Below(r, t) else Below(a, b)
  {
    if a == "" {
      assert a + r == r && b + t == t;
    } else {
      assert (a + r)[1..] == a[1..] + r && (b + t)[1..] == b[1..] + t;
      assert a == [a[0]] + a[1..] && b == [b[0]] + b[1..];
      BelowByParts(a[1..], b[1..], r, t);
    }
  }

  lemma {:induction false} DigitsCompare(s: string, u: string)
    requires |s| == |u| && AllDigits(s) && AllDigits(u)
    ensures Below(s, u) <==> ValueOf(s) <= ValueOf(u)
    ensures s == u <==> ValueOf(s) == ValueOf(u)
  {
    if s != "" {
      var n := |s| - 1;
      DigitsCompare(s[..n], u[..n]);
      BelowByParts(s[..n], u[..n], [s[n]], [u[n]]);
      assert s == s[..n] + [s[n]] && u == u[..n] + [u[n]];
      OneCharCompare(s[n], u[n]);
    }
  }

  lemma OneCharCompare(c: char, d: char)
    ensures Below([c], [d]) <==> c <= d
  {
    assert [c][1..] == "" && [d][1..] == "";
  }
}
