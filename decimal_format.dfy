/** The integer formatting `f"{k:06d}"` used for per-scan file names, and
    its inverse, reading a string of decimal digits back as a number. */
module DecimalFormat {

  predicate IsDigit(c: char)
  {
    '0' as int <= c as int <= '9' as int
  }

  predicate AllDigits(s: string)
  {
    forall i :: 0 <= i < |s| ==> IsDigit(s[i])
  }

  function DigitChar(d: nat): (c: char)
    requires d < 10
    ensures IsDigit(c) && c as int - '0' as int == d
  {
    ('0' as int + d) as char
  }

  /** The shortest decimal spelling of `n` (`str(n)`): no leading zero
      except for 0 itself. */
  function Decimal(n: nat): string
    decreases n
  {
    if n < 10 then [DigitChar(n)] else Decimal(n / 10) + [DigitChar(n % 10)]
  }

  /** `n` formatted with the `06d` specification: its decimal digits, left
      padded with '0' to a width of at least six. */
  function ZeroPad6(n: nat): string
  {
    var digits := Decimal(n);
    if |digits| < 6 then seq(6 - |digits|, _ => '0') + digits else digits
  }

  /** The number a string of decimal digits denotes (leading zeros allowed). */
  function DigitsValue(s: string): nat
    requires AllDigits(s)
  {
    if s == [] then 0
    else DigitsValue(s[..|s| - 1]) * 10 + (s[|s| - 1] as int - '0' as int)
  }

  lemma {:induction false} DecimalSpec(n: nat)
    ensures AllDigits(Decimal(n))
    ensures DigitsValue(Decimal(n)) == n
    ensures 1 <= |Decimal(n)|
    ensures n < 10 <==> |Decimal(n)| == 1
    ensures n > 0 ==> Decimal(n)[0] != '0'
  {
    if n >= 10 {
      DecimalSpec(n / 10);
      var d := Decimal(n);
      assert d[..|d| - 1] == Decimal(n / 10);
      assert d[0] == Decimal(n / 10)[0];
    }
  }

  /** A string of w digits denotes a number below 10^w. */
  lemma {:induction false} DigitsValueBelow(s: string)
    requires AllDigits(s)
    ensures DigitsValue(s) < Pow10(|s|)
  {
    if s != [] {
      DigitsValueBelow(s[..|s| - 1]);
    }
  }

  /** Leading zeros do not change the value of a digit string. */
  lemma {:induction false} LeadingZeros(k: nat, s: string)
    requires AllDigits(s)
    ensures AllDigits(seq(k, _ => '0') + s)
    ensures DigitsValue(seq(k, _ => '0') + s) == DigitsValue(s)
  {
    var z := seq(k, _ => '0');
    if s == [] {
      assert z + s == z;
      ZerosValue(k);
    } else {
      var init := s[..|s| - 1];
      LeadingZeros(k, init);
      assert (z + s)[..|z + s| - 1] == z + init;
    }
  }

  lemma {:induction false} ZerosValue(k: nat)
    ensures DigitsValue(seq(k, _ => '0')) == 0
  {
    if k > 0 {
      ZerosValue(k - 1);
      assert seq(k, _ => '0')[..k - 1] == seq(k - 1, _ => '0');
    }
  }

  /** The padded spelling has at least six characters, all digits, and
      exactly six for every number below 10^6; from 10^6 on it is the plain
      decimal spelling, without padding and without a leading zero. */
  lemma ZeroPad6Shape(n: nat)
    ensures |ZeroPad6(n)| >= 6
    ensures AllDigits(ZeroPad6(n))
    ensures n < 1000000 ==> |ZeroPad6(n)| == 6
    ensures n >= 1000000 ==> ZeroPad6(n) == Decimal(n) && ZeroPad6(n)[0] != '0'
  {
    DecimalSpec(n);
    var digits := Decimal(n);
    if |digits| < 6 {
      LeadingZeros(6 - |digits|, digits);
    }
    if n < 1000000 {
      DecimalBelow(n, 6);
    } else {
      DigitsValueBelow(digits);
      if |digits| < 6 {
        PowMonotone(|digits|, 6);
      }
    }
  }

  lemma {:induction false} PowMonotone(v: nat, w: nat)
    requires v <= w
    ensures Pow10(v) <= Pow10(w)
  {
    if v < w {
      PowMonotone(v, w - 1);
    }
  }

  /** A number below 10^w has at most w decimal digits. */
  lemma {:induction false} DecimalBelow(n: nat, w: nat)
    requires 1 <= w && n < Pow10(w)
    ensures |Decimal(n)| <= w
  {
    if n >= 10 {
      assert w >= 2;
      assert n / 10 < Pow10(w - 1);
      DecimalBelow(n / 10, w - 1);
    }
  }

  function Pow10(w: nat): nat
  {
    if w == 0 then 1 else 10 * Pow10(w - 1)
  }

  /** Reading the padded spelling back gives the number: `f"{k:06d}"` is
      injective, so two scans never share a file name. */
  lemma ZeroPad6RoundTrip(n: nat)
    ensures AllDigits(ZeroPad6(n))
    ensures DigitsValue(ZeroPad6(n)) == n
  {
    DecimalSpec(n);
    var digits := Decimal(n);
    if |digits| < 6 {
      LeadingZeros(6 - |digits|, digits);
    }
  }

  lemma ZeroPad6Injective(m: nat, n: nat)
    requires ZeroPad6(m) == ZeroPad6(n)
    ensures m == n
  {
    ZeroPad6RoundTrip(m);
    ZeroPad6RoundTrip(n);
  }
}
