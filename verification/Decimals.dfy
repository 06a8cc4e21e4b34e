/** Decimal numerals, with and without leading zeros. */
module Decimals {
  function DigitChar(n: nat): (c: char)
    requires n < 10
    ensures IsDigit(c) && DigitValue(c) == n
  {
    '0' + n as char
  }

  predicate IsDigit(c: char) {
    '0' <= c <= '9'
  }

  predicate AllDigits(s: string) {
    forall i | 0 <= i < |s| :: IsDigit(s[i])
  }

  function DigitValue(c: char): nat
    requires IsDigit(c)
  {
    (c - '0') as nat
  }

  function Digits(n: nat): (s: string)
    ensures s != "" && AllDigits(s)
  {
    if n < 10 then [DigitChar(n)] else Digits(n / 10) + [DigitChar(n % 10)]
  }

  function Value(s: string): nat
    requires AllDigits(s)
  {
    if s == "" then 0 else 10 * Value(s[..|s| - 1]) + DigitValue(s[|s| - 1])
  }

  /** Zero-padded to at least `width` digits. */
  function Pad(width: nat, n: nat): (s: string)
    ensures AllDigits(s) && |s| >= width && s != ""
  {
    var digits := Digits(n);
    if |digits| < width then Zeros(width - |digits|) + digits else digits
  }

  function Zeros(k: nat): (s: string)
    ensures |s| == k && AllDigits(s)
  {
    if k == 0 then "" else ['0'] + Zeros(k - 1)
  }

  lemma {:induction false} ValueOfDigits(n: nat)
    ensures Value(Digits(n)) == n
  {
    var s := Digits(n);
    if n < 10 {
      assert s[..|s| - 1] == "";
    } else {
      assert s[..|s| - 1] == Digits(n / 10);
      ValueOfDigits(n / 10);
    }
  }

  lemma {:induction false} ValueBelowZero(s: string)
    requires AllDigits(s)
    ensures Value(['0'] + s) == Value(s)
  {
    var t := ['0'] + s;
    if s == "" {
      assert t[..0] == "";
    } else {
      assert t[..|t| - 1] == ['0'] + s[..|s| - 1];
      ValueBelowZero(s[..|s| - 1]);
    }
  }

  lemma {:induction false} ValueBelowZeros(k: nat, s: string)
    requires AllDigits(s)
    ensures Value(Zeros(k) + s) == Value(s)
  {
    if k == 0 {
      assert Zeros(0) + s == s;
    } else {
      ValueBelowZeros(k - 1, s);
      assert Zeros(k) + s == ['0'] + (Zeros(k - 1) + s);
      ValueBelowZero(Zeros(k - 1) + s);
    }
  }

  /** A padded numeral still denotes the number. */
  lemma {:induction false} ValueOfPad(width: nat, n: nat)
    ensures Value(Pad(width, n)) == n
  {
    hide Value, Digits, Zeros;
    ValueOfDigits(n);
    if |Digits(n)| < width {
      ValueBelowZeros(width - |Digits(n)|, Digits(n));
    }
  }

  function Pow10(k: nat): (p: nat)
    ensures p > 0
  {
    if k == 0 then 1 else 10 * Pow10(k - 1)
  }

  /** A numeral fits in `width` digits exactly when the number is below the power of ten. */
  lemma {:induction false} DigitsFit(width: nat, n: nat)
    requires width > 0
    ensures |Digits(n)| <= width <==> n < Pow10(width)
  {
    if width == 1 {
      assert Pow10(1) == 10 * Pow10(0);
    } else if n < 10 {
      assert Pow10(width) == 10 * Pow10(width - 1);
    } else {
      DigitsFit(width - 1, n / 10);
    }
  }

  lemma {:induction false} ValueFits(s: string)
    requires AllDigits(s)
    ensures Value(s) < Pow10(|s|)
  {
    if s != "" {
      ValueFits(s[..|s| - 1]);
    }
  }

  /** `s` comes before `t` in the order of characters, both being as long. */
  ghost predicate Precedes(s: string, t: string) {
    |s| == |t| && exists i | 0 <= i < |s| :: s[..i] == t[..i] && s[i] < t[i]
  }

  /** Numerals of one length are ordered as the numbers they denote. */
  lemma {:induction false} OrderOfValues(s: string, t: string)
    requires AllDigits(s) && AllDigits(t) && |s| == |t|
    ensures Value(s) < Value(t) ==> Precedes(s, t)
    ensures Value(s) == Value(t) ==> s == t
  {
    if s != "" {
      var a, b, n := s[..|s| - 1], t[..|t| - 1], |s| - 1;
      OrderOfValues(a, b);
      hide Value;
      assert s == a + [s[n]] && t == b + [t[n]];
      LastDigit(s, t);
      if Value(a) < Value(b) {
        var i :| 0 <= i < |a| && a[..i] == b[..i] && a[i] < b[i];
        assert s[..i] == a[..i] && t[..i] == b[..i];
      } else if a == b && s[n] < t[n] {
        assert s[..n] == t[..n];
      }
    }
  }

  lemma LastDigit(s: string, t: string)
    requires AllDigits(s) && AllDigits(t) && s != "" && t != ""
    ensures var a, b, c, d := Value(s[..|s| - 1]), Value(t[..|t| - 1]), s[|s| - 1], t[|t| - 1];
      && (Value(s) < Value(t) <==> a < b || (a == b && c < d))
      && (Value(s) == Value(t) <==> a == b && c == d)
  {
    hide Value, DigitValue;
    ValueSplit(s);
    ValueSplit(t);
    DigitOrder(s[|s| - 1], t[|t| - 1]);
  }

  lemma DigitOrder(c: char, d: char)
    requires IsDigit(c) && IsDigit(d)
    ensures DigitValue(c) < 10 && DigitValue(d) < 10
    ensures (c < d <==> DigitValue(c) < DigitValue(d)) && (c == d <==> DigitValue(c) == DigitValue(d))
  {
  }

  lemma ValueSplit(s: string)
    requires AllDigits(s) && s != ""
    ensures Value(s) == 10 * Value(s[..|s| - 1]) + DigitValue(s[|s| - 1])
  {
  }

  /** A numeral is what padding the number it denotes to its length gives. */
  lemma {:induction false} PadOfValue(s: string)
    requires AllDigits(s) && s != ""
    ensures Pad(|s|, Value(s)) == s
  {
    ValueFits(s);
    DigitsFit(|s|, Value(s));
    ValueOfPad(|s|, Value(s));
    hide Value, Digits;
    OrderOfValues(Pad(|s|, Value(s)), s);
  }
}
