/**
 * Decimal text of numbers: Python's fixed-point format `f"{x:.<d>f}"` and the
 * parser behind `float(s)`, over exact reals.
 */
module Numbers {
  import opened Results
  import opened Text

  function Pow10(d: nat): (p: nat)
    ensures p >= 1
    decreases d
  {
    if d == 0 then 1 else 10 * Pow10(d - 1)
  }

  predicate IsDigit(c: char) {
    '0' <= c <= '9'
  }

  predicate AllDigits(s: string) {
    forall i :: 0 <= i < |s| ==> IsDigit(s[i])
  }

  function DigitChar(d: nat): (c: char)
    requires d < 10
    ensures IsDigit(c)
  {
    (48 + d) as char
  }

  function DigitValue(c: char): (d: nat)
    requires IsDigit(c)
    ensures d < 10
  {
    c as int - 48
  }

  /** The decimal digits of `n`, most significant first, without leading zeros. */
  function NatToString(n: nat): (s: string)
    ensures s != [] && AllDigits(s)
    decreases n
  {
    if n < 10 then [DigitChar(n)] else NatToString(n / 10) + [DigitChar(n % 10)]
  }

  /** The number a string of decimal digits denotes. */
  function DigitsValue(s: string): nat
    requires AllDigits(s)
    decreases |s|
  {
    if s == [] then 0 else 10 * DigitsValue(s[..|s| - 1]) + DigitValue(s[|s| - 1])
  }

  lemma {:induction false} DigitsValueOfNatToString(n: nat)
    ensures DigitsValue(NatToString(n)) == n
    decreases n
  {
    if n >= 10 {
      var s := NatToString(n);
      assert s[..|s| - 1] == NatToString(n / 10);
      DigitsValueOfNatToString(n / 10);
    }
  }

  /** A number below `10^d` has at most `d` digits. */
  lemma {:induction false} NatToStringFits(n: nat, d: nat)
    requires 1 <= d && n < Pow10(d)
    ensures |NatToString(n)| <= d
    decreases d
  {
    if n >= 10 {
      NatToStringFits(n / 10, d - 1);
    }
  }

  function Zeros(k: nat): (r: string)
    ensures |r| == k && AllDigits(r)
  {
    seq(k, _ => '0')
  }

  lemma {:induction false} DigitsValueOfZeros(k: nat)
    ensures DigitsValue(Zeros(k)) == 0
    decreases k
  {
    if k > 0 {
      assert Zeros(k)[..k - 1] == Zeros(k - 1);
      DigitsValueOfZeros(k - 1);
    }
  }

  /** Leading zeros do not change the value of a digit string. */
  lemma {:induction false} DigitsValueLeadingZeros(k: nat, s: string)
    requires AllDigits(s)
    ensures DigitsValue(Zeros(k) + s) == DigitsValue(s)
    decreases |s|
  {
    if s == [] {
      assert Zeros(k) + s == Zeros(k);
      DigitsValueOfZeros(k);
    } else {
      var t := Zeros(k) + s;
      assert t[..|t| - 1] == Zeros(k) + s[..|s| - 1];
      DigitsValueLeadingZeros(k, s[..|s| - 1]);
    }
  }

  /** `s` left-padded with zeros to width `w`. */
  function ZeroPad(s: string, w: nat): (r: string)
    requires AllDigits(s)
    ensures AllDigits(r)
  {
    if |s| < w then Zeros(w - |s|) + s else s
  }

  /** The integer nearest to `q`, ties going to the even one (IEEE 754 roundTiesToEven). */
  function RoundHalfEven(q: real): (n: nat)
    requires q >= 0.0
    ensures n as real - q <= 0.5 && q - n as real <= 0.5
    ensures (n as real - q == 0.5 || q - n as real == 0.5) ==> n % 2 == 0
  {
    var f := q.Floor;
    var r := q - f as real;
    if r > 0.5 then f + 1 else if r < 0.5 then f else if f % 2 == 0 then f else f + 1
  }

  function Abs(x: real): real {
    if x < 0.0 then -x else x
  }

  /** `|x|` in units of `10^-d`, rounded as Python's fixed-point format rounds. */
  function Scaled(x: real, d: nat): nat {
    RoundHalfEven(Abs(x) * Pow10(d) as real)
  }

  function Quotient(n: nat, p: nat): (q: nat)
    requires p >= 1
    ensures q == n / p
  {
    DivModNat(n, p);
    n / p
  }

  function Remainder(n: nat, p: nat): (r: nat)
    requires p >= 1
    ensures r == n % p && r < p
  {
    DivModNat(n, p);
    n % p
  }

  /** The text of `n * 10^-d` with exactly `d` digits after the point (none, and no point, for d = 0). */
  function FixedText(n: nat, d: nat): (s: string)
    ensures s != []
  {
    if d == 0 then NatToString(n)
    else NatToString(Quotient(n, Pow10(d))) + "." + ZeroPad(NatToString(Remainder(n, Pow10(d))), d)
  }

  /** Python's `f"{x:.<d>f}"`: the sign of `x` when negative, then `|x|` rounded to `d` decimals. */
  function FormatFixed(x: real, d: nat): (s: string)
    ensures s != []
  {
    (if x < 0.0 then "-" else "") + FixedText(Scaled(x, d), d)
  }

  /** The value that `FormatFixed(x, d)` denotes: `x` rounded to `d` decimals. */
  function RoundFixed(x: real, d: nat): real {
    var m := Scaled(x, d) as real / Pow10(d) as real;
    if x < 0.0 then -m else m
  }

  /** `r` lies within half a unit of `x`, a unit being `1 / p`. */
  predicate WithinHalfUnit(r: real, x: real, p: real) {
    (r - x) * p <= 0.5 && (x - r) * p <= 0.5
  }

  /** The rounded value lies within half a unit of the last printed decimal of `x`. */
  lemma RoundFixedBound(x: real, d: nat)
    ensures WithinHalfUnit(RoundFixed(x, d), x, Pow10(d) as real)
  {
    UnscaleBound(x, Pow10(d) as real, Scaled(x, d) as real, RoundFixed(x, d));
  }

  /** Dividing a rounding of `|x| * p` by `p` and restoring the sign stays within `0.5 / p` of `x`. */
  lemma UnscaleBound(x: real, p: real, n: real, r: real)
    requires p > 0.0
    requires n - Abs(x) * p <= 0.5 && Abs(x) * p - n <= 0.5
    requires r == if x < 0.0 then -(n / p) else n / p
    ensures WithinHalfUnit(r, x, p)
  {
    assert (n / p) * p == n;
    if x < 0.0 {
      assert (r - x) * p == Abs(x) * p - n;
    } else {
      assert (r - x) * p == n - Abs(x) * p;
    }
  }

  /** Every character of a fixed-point text is a digit, the point or a minus sign. */
  predicate IsNumberChar(c: char) {
    IsDigit(c) || c == '.' || c == '-'
  }

  /** A fixed-point text without its sign starts with a digit and holds only digits and the point. */
  lemma FixedTextChars(n: nat, d: nat)
    ensures var t := FixedText(n, d);
            IsDigit(t[0]) && forall k :: 0 <= k < |t| ==> IsDigit(t[k]) || t[k] == '.'
  {
    var p := Pow10(d);
    DivModNat(n, p);
    if d != 0 {
      var whole, frac := NatToString(n / p), ZeroPad(NatToString(n % p), d);
      var t := FixedText(n, d);
      assert t == whole + "." + frac;
      forall k | 0 <= k < |t| ensures IsDigit(t[k]) || t[k] == '.' {
        if k < |whole| {
          assert t[k] == whole[k];
        } else if k > |whole| {
          assert t[k] == frac[k - |whole| - 1];
        }
      }
    }
  }

  lemma FormatFixedChars(x: real, d: nat)
    ensures forall i :: 0 <= i < |FormatFixed(x, d)| ==> IsNumberChar(FormatFixed(x, d)[i])
  {
    var t := FixedText(Scaled(x, d), d);
    FixedTextChars(Scaled(x, d), d);
    if x < 0.0 {
      assert FormatFixed(x, d) == "-" + t;
    } else {
      assert FormatFixed(x, d) == t;
    }
  }

  /** A fixed-point text has no white space, so `split()` keeps it in one field. */
  lemma FormatFixedNoSpace(x: real, d: nat)
    ensures NoSpace(FormatFixed(x, d))
  {
    FormatFixedChars(x, d);
  }

  /** The index of the first `c` in `s`, or `|s|`. */
  function IndexOf(s: string, c: char): (i: nat)
    ensures i <= |s|
    ensures forall k :: 0 <= k < i ==> s[k] != c
    ensures i < |s| ==> s[i] == c
    decreases |s|
  {
    if s == [] then 0 else if s[0] == c then 0 else 1 + IndexOf(s[1..], c)
  }

  /** The index of the first exponent marker `e` or `E` in `s`, or `|s|`. */
  function ExponentIndex(s: string): (i: nat)
    ensures i <= |s|
    ensures forall k :: 0 <= k < i ==> s[k] != 'e' && s[k] != 'E'
    ensures i < |s| ==> s[i] == 'e' || s[i] == 'E'
    decreases |s|
  {
    if s == [] then 0 else if s[0] == 'e' || s[0] == 'E' then 0 else 1 + ExponentIndex(s[1..])
  }

  /** Digits with at most one decimal point and at least one digit: `12`, `1.5`, `1.`, `.5`. */
  function ParseDecimal(s: string): Option<real> {
    var p := IndexOf(s, '.');
    var whole := s[..p];
    var frac := if p < |s| then s[p + 1..] else [];
    if AllDigits(whole) && AllDigits(frac) && |whole| + |frac| > 0 then
      Some(DecimalValue(whole, frac))
    else None
  }

  /** The value of the decimal `whole.frac`. */
  function DecimalValue(whole: string, frac: string): real
    requires AllDigits(whole) && AllDigits(frac)
  {
    DigitsValue(whole) as real + DigitsValue(frac) as real / Pow10(|frac|) as real
  }

  /** An optionally signed, non-empty run of digits after the exponent marker. */
  function ParseExponent(s: string): Option<int> {
    var signed := s != [] && (s[0] == '+' || s[0] == '-');
    var digits := if signed then s[1..] else s;
    if digits != [] && AllDigits(digits) then
      Some(if signed && s[0] == '-' then -(DigitsValue(digits) as int) else DigitsValue(digits))
    else None
  }

  function ScaleByPow10(m: real, x: int): real {
    if x >= 0 then m * Pow10(x) as real else m / Pow10(-x) as real
  }

  function ParseUnsigned(s: string): Option<real> {
    var e := ExponentIndex(s);
    if e == |s| then ParseDecimal(s)
    else
      match (ParseDecimal(s[..e]), ParseExponent(s[e + 1..]))
      case (Some(m), Some(x)) => Some(ScaleByPow10(m, x))
      case _ => None
  }

  /**
   * Python's `float(s)` on a token without white space: an optional sign, a
   * decimal with an optional exponent. `None` stands for the `ValueError`.
   */
  function ParseFloat(s: string): Option<real> {
    if s != [] && (s[0] == '+' || s[0] == '-') then
      match ParseUnsigned(s[1..])
      case None => None
      case Some(v) => Some(if s[0] == '-' then -v else v)
    else ParseUnsigned(s)
  }

  /** Splitting a count of `10^-d` units into whole units and the remainder. */
  lemma DivModAsReal(n: nat, p: nat)
    requires p >= 1
    ensures (n / p) as real + (n % p) as real / p as real == n as real / p as real
  {
    var q := (n / p) as real;
    var r := (n % p) as real;
    var pr := p as real;
    assert n == (n / p) * p + n % p;
    assert n as real == q * pr + r;
    calc {
      q + r / pr;
      (q * pr) / pr + r / pr;
      (q * pr + r) / pr;
    }
  }

  lemma IndexOfAfterDigits(digits: string, rest: string, c: char)
    requires AllDigits(digits) && !IsDigit(c)
    requires rest != [] && rest[0] == c
    ensures IndexOf(digits + rest, c) == |digits|
  {
    var s := digits + rest;
    assert forall k :: 0 <= k < |digits| ==> s[k] == digits[k];
    assert s[|digits|] == c;
  }

  lemma DivModAsRealOf(n: nat, p: nat, q: nat, r: nat)
    requires p >= 1 && q == n / p && r == n % p
    ensures q as real + r as real / p as real == n as real / p as real
  {
    DivModAsReal(n, p);
  }

  lemma ParseDecimalOfParts(whole: string, frac: string)
    requires whole != [] && AllDigits(whole) && AllDigits(frac)
    ensures ParseDecimal(whole + "." + frac) == Some(DecimalValue(whole, frac))
  {
    var s := whole + "." + frac;
    assert s == whole + ("." + frac);
    IndexOfAfterDigits(whole, "." + frac, '.');
    assert s[..|whole|] == whole;
    assert s[|whole| + 1..] == frac;
  }

  lemma ParseDecimalOfDigits(digits: string)
    requires digits != [] && AllDigits(digits)
    ensures ParseDecimal(digits) == Some(DecimalValue(digits, []))
  {
    assert IndexOf(digits, '.') == |digits|;
    assert digits[..|digits|] == digits;
  }

  /** The digits after the point of a fixed-point text denote the remainder modulo `10^d`. */
  lemma FractionDigits(r: nat, d: nat)
    requires d >= 1 && r < Pow10(d)
    ensures |ZeroPad(NatToString(r), d)| == d
    ensures DigitsValue(ZeroPad(NatToString(r), d)) == r
  {
    var frac0 := NatToString(r);
    NatToStringFits(r, d);
    DigitsValueOfNatToString(r);
    if |frac0| < d {
      DigitsValueLeadingZeros(d - |frac0|, frac0);
    }
  }

  /** `whole.frac` reads back as the number its digit strings denote. */
  lemma ParseDecimalOfPartsValue(whole: string, frac: string, a: nat, b: nat, d: nat)
    requires whole != [] && AllDigits(whole) && AllDigits(frac) && |frac| == d
    requires DigitsValue(whole) == a && DigitsValue(frac) == b
    ensures ParseDecimal(whole + "." + frac) == Some(a as real + b as real / Pow10(d) as real)
  {
    ParseDecimalOfParts(whole, frac);
    DecimalValueOf(whole, frac, a, b, d);
  }

  lemma DecimalValueOf(whole: string, frac: string, a: nat, b: nat, d: nat)
    requires AllDigits(whole) && AllDigits(frac) && |frac| == d
    requires DigitsValue(whole) == a && DigitsValue(frac) == b
    ensures DecimalValue(whole, frac) == a as real + b as real / Pow10(d) as real
  {
  }

  lemma DivModNat(n: nat, p: nat)
    requires p >= 1
    ensures 0 <= n / p && 0 <= n % p < p
  {
  }

  /** A whole part, the point and `d` zero-padded fraction digits read back as `q + r / 10^d`. */
  lemma ParseFixedParts(q: nat, r: nat, d: nat)
    requires d >= 1 && r < Pow10(d)
    ensures ParseDecimal(NatToString(q) + "." + ZeroPad(NatToString(r), d)) == Some(q as real + r as real / Pow10(d) as real)
  {
    var whole, frac := NatToString(q), ZeroPad(NatToString(r), d);
    FractionDigits(r, d);
    DigitsValueOfNatToString(q);
    ParseDecimalOfPartsValue(whole, frac, q, r, d);
  }

  /** A fixed-point text with decimals is the quotient, the point and the zero-padded remainder. */
  lemma FixedTextParts(n: nat, d: nat) returns (q: nat, r: nat)
    requires d >= 1
    ensures q == n / Pow10(d) && r == n % Pow10(d) && r < Pow10(d)
    ensures FixedText(n, d) == NatToString(q) + "." + ZeroPad(NatToString(r), d)
  {
    DivModNat(n, Pow10(d));
    q, r := n / Pow10(d), n % Pow10(d);
  }

  lemma ParseDecimalOfFixedTextFraction(n: nat, d: nat)
    requires d >= 1
    ensures ParseDecimal(FixedText(n, d)) == Some(n as real / Pow10(d) as real)
  {
    var q, r := FixedTextParts(n, d);
    ParseFixedParts(q, r, d);
    DivModAsRealOf(n, Pow10(d), q, r);
  }

  lemma ParseDecimalOfFixedText(n: nat, d: nat)
    ensures ParseDecimal(FixedText(n, d)) == Some(n as real / Pow10(d) as real)
  {
    if d == 0 {
      DigitsValueOfNatToString(n);
      ParseDecimalOfDigits(NatToString(n));
    } else {
      ParseDecimalOfFixedTextFraction(n, d);
    }
  }

  /** The unsigned reader reads a fixed-point text back as the scaled integer over `10^d`. */
  lemma ParseUnsignedFixedText(n: nat, d: nat)
    ensures ParseUnsigned(FixedText(n, d)) == Some(n as real / Pow10(d) as real)
  {
    var t := FixedText(n, d);
    FixedTextChars(n, d);
    assert ExponentIndex(t) == |t| by {
      assert forall k :: 0 <= k < |t| ==> t[k] != 'e' && t[k] != 'E';
    }
    ParseDecimalOfFixedText(n, d);
  }

  /** A sign in front of a digit-led unsigned number negates what the reader returns. */
  lemma ParseFloatSigned(s: string, t: string, negative: bool, v: real)
    requires s == (if negative then "-" else "") + t
    requires t != [] && IsDigit(t[0]) && ParseUnsigned(t) == Some(v)
    ensures ParseFloat(s) == Some(if negative then -v else v)
  {
    if negative {
      assert s[0] == '-' && s[1..] == t;
    } else {
      assert s == t;
    }
  }

  /** The rounded value with its sign put back. */
  lemma RoundFixedSigned(x: real, d: nat, v: real)
    requires v == Scaled(x, d) as real / Pow10(d) as real
    ensures RoundFixed(x, d) == if x < 0.0 then -v else v
  {
  }

  /** Parsing what the fixed-point format printed gives back `x` rounded to `d` decimals. */
  lemma ParseFormatFixed(x: real, d: nat)
    ensures ParseFloat(FormatFixed(x, d)) == Some(RoundFixed(x, d))
  {
    var n := Scaled(x, d);
    var v := n as real / Pow10(d) as real;
    FixedTextChars(n, d);
    ParseUnsignedFixedText(n, d);
    ParseFloatSigned(FormatFixed(x, d), FixedText(n, d), x < 0.0, v);
    RoundFixedSigned(x, d, v);
  }
}
