/** Decimal text of integers, as std::to_string writes it. */
module Decimal {

  function ToDecimal(n: nat): (s: string)
    ensures s != [] && forall c :: c in s ==> '0' <= c <= '9'
  {
    if n < 10 then [n as char + '0'] else ToDecimal(n / 10) + [(n % 10) as char + '0']
  }

  function FromDecimal(s: string): int {
    if s == [] then 0 else FromDecimal(s[..|s| - 1]) * 10 + s[|s| - 1] as int - '0' as int
  }

  lemma {:induction false} DecimalRoundTrip(n: nat)
    ensures FromDecimal(ToDecimal(n)) == n
  {
    if n < 10 {
      assert ToDecimal(n)[..0] == [];
    } else {
      DecimalRoundTrip(n / 10);
      var s := ToDecimal(n);
      assert s[..|s| - 1] == ToDecimal(n / 10);
    }
  }

  function Pow10(k: nat): (p: nat)
    ensures p > 0
  {
    if k == 0 then 1 else 10 * Pow10(k - 1)
  }

  lemma DivideTwice(n: nat, p: nat)
    requires p > 0
    ensures n / 10 / p == n / (10 * p)
  {
    var q := n / 10 / p;
    var rest := n / 10 % p;
    assert n / 10 == q * p + rest;
    var m := 10 * rest + n % 10;
    assert n == q * (10 * p) + m && 0 <= m < 10 * p;
    QuotientIs(n, 10 * p, q, m);
  }

  lemma QuotientIs(n: nat, d: nat, q: nat, m: nat)
    requires d > 0 && n == q * d + m && m < d
    ensures n / d == q
  {
    var q', m' := n / d, n % d;
    assert n == q' * d + m';
    if q < q' {
      TimesGrows(q + 1, q', d);
    } else if q' < q {
      TimesGrows(q' + 1, q, d);
    }
  }

  lemma TimesGrows(a: nat, b: nat, d: nat)
    requires a <= b
    ensures a * d <= b * d
  {
  }

  /** Counted from the right, the k-th character is the digit for 10^k; there is no leading zero. */
  lemma {:induction false} DigitAt(n: nat, k: nat)
    requires k < |ToDecimal(n)|
    ensures ToDecimal(n)[|ToDecimal(n)| - 1 - k] == (n / Pow10(k) % 10) as char + '0'
    ensures n > 0 ==> ToDecimal(n)[0] != '0'
  {
    var s := ToDecimal(n);
    if n >= 10 {
      var t := ToDecimal(n / 10);
      DigitAt(n / 10, if k > 0 then k - 1 else 0);
      if k > 0 {
        assert s[|s| - 1 - k] == t[|t| - 1 - (k - 1)];
        DivideTwice(n, Pow10(k - 1));
      }
    }
  }

  /** Negative numbers carry a sign. */
  function ToText(n: int): string {
    if n < 0 then "-" + ToDecimal(-n) else ToDecimal(n)
  }

  lemma TextTells(m: int, n: int)
    requires ToText(m) == ToText(n)
    ensures m == n
  {
    if m < 0 && n < 0 {
      assert ToDecimal(-m) == ToText(m)[1..] == ToDecimal(-n);
      DecimalRoundTrip(-m);
      DecimalRoundTrip(-n);
    } else if m >= 0 && n >= 0 {
      DecimalRoundTrip(m);
      DecimalRoundTrip(n);
    } else {
      SignTells(m, n);
    }
  }

  lemma SignTells(m: int, n: int)
    requires ToText(m)[..1] == ToText(n)[..1]
    ensures m < 0 <==> n < 0
  {
    assert ToText(m)[..1][0] == ToText(m)[0] && ToText(n)[..1][0] == ToText(n)[0];
    assert m >= 0 ==> ToText(m)[0] in ToDecimal(m);
    assert n >= 0 ==> ToText(n)[0] in ToDecimal(n);
  }

  lemma TextHasNoColon(n: int)
    ensures ':' !in ToText(n)
  {
  }
}
