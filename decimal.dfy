/** Decimal text of natural numbers, as JavaScript's number-to-string
    conversion prints integers and numbers with at most two decimals. */
module Decimal {
  import opened Wrappers
  import opened Strings

  predicate IsDigit(c: char) { '0' <= c <= '9' }

  predicate AllDigits(s: string) { forall i :: 0 <= i < |s| ==> IsDigit(s[i]) }

  function DigitChar(d: nat): (c: char)
    requires d < 10
    ensures IsDigit(c) && DigitValue(c) == d
  {
    (48 + d) as char
  }

  function DigitValue(c: char): nat
    requires IsDigit(c)
  {
    c as nat - 48
  }

  /** Shortest decimal text of `n`: no leading zero except for 0 itself. */
  function NatToString(n: nat): (s: string)
    ensures 1 <= |s| && AllDigits(s)
    ensures s[0] == '0' <==> n == 0
    ensures n < 10 <==> |s| == 1
    decreases n
  {
    if n < 10 then [DigitChar(n)] else NatToString(n / 10) + [DigitChar(n % 10)]
  }

  /** The number a string of digits denotes. */
  function DigitsValue(s: string): nat
    requires AllDigits(s)
  {
    if s == [] then 0 else DigitsValue(s[..|s| - 1]) * 10 + DigitValue(s[|s| - 1])
  }

  lemma {:induction false} NatToStringRoundTrip(n: nat)
    ensures DigitsValue(NatToString(n)) == n
  {
    if n >= 10 {
      var s := NatToString(n);
      assert s[..|s| - 1] == NatToString(n / 10);
      NatToStringRoundTrip(n / 10);
    }
  }

  /** Distinct numbers have distinct texts. */
  lemma NatToStringInjective(m: nat, n: nat)
    requires NatToString(m) == NatToString(n)
    ensures m == n
  {
    NatToStringRoundTrip(m);
    NatToStringRoundTrip(n);
  }

  /** The text of a number `h / 100` of hundredths with trailing zeros of the
      fraction dropped, and no decimal point when the fraction is zero. */
  function HundredthsText(h: nat): (s: string)
  {
    var whole, frac := h / 100, h % 100;
    NatToString(whole)
      + (if frac == 0 then ""
         else if frac % 10 == 0 then ['.', DigitChar(frac / 10)]
         else ['.', DigitChar(frac / 10), DigitChar(frac % 10)])
  }

  /** Reads back a decimal with at most two decimals as a count of hundredths. */
  function ParseHundredths(s: string): Option<nat>
  {
    var k := IndexOf(s, '.');
    var w := s[..k];
    if w == [] || !AllDigits(w) then None
    else if k == |s| then Some(DigitsValue(w) * 100)
    else
      var f := s[k + 1..];
      if |f| == 1 && IsDigit(f[0]) then Some(DigitsValue(w) * 100 + DigitValue(f[0]) * 10)
      else if |f| == 2 && AllDigits(f) then Some(DigitsValue(w) * 100 + DigitsValue(f))
      else None
  }

  /** Digits hold no dot, so the first dot of `w + t` is where `t` begins. */
  lemma DotIndexOfDigits(w: string, t: string)
    requires AllDigits(w)
    requires t == [] || t[0] == '.'
    ensures IndexOf(w + t, '.') == |w|
  {
    assert forall i :: 0 <= i < |w| ==> w[i] != '.' by {
      forall i | 0 <= i < |w| ensures w[i] != '.' { assert IsDigit(w[i]); }
    }
    IndexOfAfter(w, t, '.');
  }

  /** Where the dot of digits, a dot and a fraction sits, and what is on either side. */
  lemma SplitAtDot(w: string, f: string)
    requires AllDigits(w)
    ensures var s := w + ['.'] + f;
            IndexOf(s, '.') == |w| && s[..|w|] == w && s[|w| + 1..] == f
  {
    var s := w + ['.'] + f;
    assert s == w + (['.'] + f);
    DotIndexOfDigits(w, ['.'] + f);
    assert s[..|w|] == w;
    assert s[|w| + 1..] == f;
  }

  /** The printed number reads back as exactly the hundredths it was printed from. */
  lemma HundredthsRoundTrip(h: nat)
    ensures ParseHundredths(HundredthsText(h)) == Some(h)
  {
    var whole, frac := h / 100, h % 100;
    var w := NatToString(whole);
    NatToStringRoundTrip(whole);
    if frac == 0 {
      assert HundredthsText(h) == w;
      ParseWhole(w);
    } else if frac % 10 == 0 {
      assert HundredthsText(h) == w + ['.', DigitChar(frac / 10)];
      ParseOneDecimal(w, frac / 10);
    } else {
      assert HundredthsText(h) == w + ['.', DigitChar(frac / 10), DigitChar(frac % 10)];
      ParseTwoDecimals(w, frac / 10, frac % 10);
    }
  }

  lemma ParseWhole(w: string)
    requires w != [] && AllDigits(w)
    ensures ParseHundredths(w) == Some(DigitsValue(w) * 100)
  {
    assert w + [] == w;
    DotIndexOfDigits(w, []);
  }

  lemma ParseOneDecimal(w: string, a: nat)
    requires w != [] && AllDigits(w) && a < 10
    ensures ParseHundredths(w + ['.', DigitChar(a)]) == Some(DigitsValue(w) * 100 + a * 10)
  {
    var f := [DigitChar(a)];
    assert w + ['.', DigitChar(a)] == w + ['.'] + f;
    SplitAtDot(w, f);
  }

  lemma ParseTwoDecimals(w: string, a: nat, b: nat)
    requires w != [] && AllDigits(w) && a < 10 && b < 10
    ensures ParseHundredths(w + ['.', DigitChar(a), DigitChar(b)]) == Some(DigitsValue(w) * 100 + a * 10 + b)
  {
    var f := [DigitChar(a), DigitChar(b)];
    assert w + ['.', DigitChar(a), DigitChar(b)] == w + ['.'] + f;
    assert f[..1] == [DigitChar(a)] && [DigitChar(a)][..0] == [];
    assert DigitsValue(f[..1]) == a;
    SplitAtDot(w, f);
  }

  /** The printed fraction never ends in a zero. */
  lemma HundredthsNoTrailingZero(h: nat)
    ensures var s := HundredthsText(h);
            IndexOf(s, '.') < |s| ==> s[|s| - 1] != '0' && IndexOf(s, '.') < |s| - 1
  {
    var whole, frac := h / 100, h % 100;
    var w := NatToString(whole);
    var t := if frac == 0 then ""
             else if frac % 10 == 0 then ['.', DigitChar(frac / 10)]
             else ['.', DigitChar(frac / 10), DigitChar(frac % 10)];
    DotIndexOfDigits(w, t);
    assert HundredthsText(h) == w + t;
  }
}
