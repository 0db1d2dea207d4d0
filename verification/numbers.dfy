/**
 * The part of JavaScript's number semantics the modules use: ports are
 * printed with `Number.prototype.toString` and read back with `parseInt`.
 * Only non-negative integers and NaN arise that way.
 */
module Numbers {

  /** A JavaScript number as far as this system produces them. */
  datatype Number = Num(value: nat) | NaN

  predicate IsDigit(c: char)
  {
    '0' <= c <= '9'
  }

  predicate AllDigits(s: string)
  {
    forall i :: 0 <= i < |s| ==> IsDigit(s[i])
  }

  function DigitChar(d: nat): (c: char)
    requires d < 10
    ensures IsDigit(c)
  {
    "0123456789"[d]
  }

  function DigitValue(c: char): (d: nat)
    requires IsDigit(c)
    ensures d < 10
  {
    c as int - '0' as int
  }

  lemma DigitValueOfChar(d: nat)
    requires d < 10
    ensures DigitValue(DigitChar(d)) == d
  {
  }

  /** `n.toString()` for a non-negative integer: its shortest decimal digits. */
  function DecimalString(n: nat): (s: string)
    ensures |s| >= 1 && AllDigits(s)
    ensures |s| > 1 ==> s[0] != '0'
    decreases n
  {
    if n < 10 then [DigitChar(n)]
    else DecimalString(n / 10) + [DigitChar(n % 10)]
  }

  /** The value of a string of decimal digits, most significant first. */
  function DigitsValue(ds: string): nat
    requires AllDigits(ds)
  {
    if |ds| == 0 then 0
    else 10 * DigitsValue(ds[..|ds| - 1]) + DigitValue(ds[|ds| - 1])
  }

  /** The longest prefix of `s` made of decimal digits. */
  function DigitPrefix(s: string): (p: string)
    ensures AllDigits(p) && p <= s
    ensures |p| < |s| ==> !IsDigit(s[|p|])
  {
    if |s| == 0 || !IsDigit(s[0]) then ""
    else [s[0]] + DigitPrefix(s[1..])
  }

  /**
   * `parseInt(s)` restricted to unsigned decimal text: the value of the
   * leading digits, NaN when `s` does not start with a digit.
   */
  function ParseInt(s: string): (r: Number)
    ensures r.NaN? <==> |s| == 0 || !IsDigit(s[0])
    ensures |s| > 0 && AllDigits(s) ==> r == Num(DigitsValue(s))
  {
    var p := DigitPrefix(s);
    assert AllDigits(s) ==> p == s by { if AllDigits(s) { DigitPrefixOfDigits(s); } }
    if |p| == 0 then NaN else Num(DigitsValue(p))
  }

  /** `x.toString()`. */
  function ToString(x: Number): (s: string)
    ensures |s| >= 1
    ensures AllDigits(s) <==> x.Num?
  {
    match x
    case Num(n) => DecimalString(n)
    case NaN => assert !IsDigit("NaN"[0]); "NaN"
  }

  lemma {:induction false} DigitsOfDecimal(n: nat)
    ensures DigitsValue(DecimalString(n)) == n
    decreases n
  {
    if n >= 10 {
      var s := DecimalString(n);
      DigitsOfDecimal(n / 10);
      assert s[..|s| - 1] == DecimalString(n / 10);
      DigitValueOfChar(n % 10);
    } else {
      DigitValueOfChar(n);
    }
  }

  lemma {:induction false} DigitPrefixOfDigits(s: string)
    requires AllDigits(s)
    ensures DigitPrefix(s) == s
    decreases |s|
  {
    if |s| > 0 {
      DigitPrefixOfDigits(s[1..]);
      assert [s[0]] + s[1..] == s;
    }
  }

  /** On a non-empty digit string, `parseInt` returns exactly that string's value. */
  lemma ParseDigits(s: string)
    requires |s| > 0 && AllDigits(s)
    ensures ParseInt(s) == Num(DigitsValue(s))
  {
    DigitPrefixOfDigits(s);
  }

  /** `parseInt(x.toString()) == x` for every number the system produces, NaN included. */
  lemma ParseToString(x: Number)
    ensures ParseInt(ToString(x)) == x
  {
    if x.Num? {
      ParseDigits(DecimalString(x.value));
      DigitsOfDecimal(x.value);
    }
  }

  /** `toString` is injective, so distinct ports print differently. */
  lemma ToStringInjective(x: Number, y: Number)
    ensures ToString(x) == ToString(y) ==> x == y
  {
    ParseToString(x);
    ParseToString(y);
  }
}
