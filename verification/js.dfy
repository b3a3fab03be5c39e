/**
  The few JavaScript value semantics the dashboard relies on: optional
  values (`undefined`), scalar ids that are either numbers or strings,
  truthiness, `String(x)` on a scalar, the `||` fallback and an ASCII
  `toLowerCase`.
 */
module Js {

  /** A value that may be `undefined` (or `null`). */
  datatype Option<+T> = None | Some(value: T)

  /** A scalar as it comes out of a parsed configuration document: an
      integral number or a string. Strict equality `===` is datatype
      equality, so `Num(1)` and `Str("1")` are different. */
  datatype Scalar = Num(n: int) | Str(s: string)

  /** JavaScript truthiness of a scalar: `0` and `''` are falsy. */
  predicate Truthy(v: Scalar)
  {
    match v
    case Num(n) => n != 0
    case Str(s) => s != ""
  }

  /** Truthiness of a possibly-undefined scalar. */
  predicate OptTruthy(v: Option<Scalar>)
  {
    v.Some? && Truthy(v.value)
  }

  /** `a || b` on two possibly-undefined strings. */
  function OrElse(a: Option<string>, b: Option<string>): (r: Option<string>)
    ensures a.Some? && a.value != "" ==> r == a
    ensures !(a.Some? && a.value != "") ==> r == b
  {
    if a.Some? && a.value != "" then a else b
  }

  predicate IsDigit(c: char)
  {
    '0' <= c <= '9'
  }

  function DigitChar(d: nat): (c: char)
    requires d < 10
    ensures IsDigit(c)
    ensures c == '0' <==> d == 0
  {
    ((('0' as int) + d) as char)
  }

  function DigitValue(c: char): (d: nat)
    requires IsDigit(c)
    ensures d < 10
  {
    (c as int) - ('0' as int)
  }

  /** Decimal digits of a natural number, as `String(n)` prints them. */
  function NatToDecimal(n: nat): (s: string)
    ensures |s| > 0
    ensures forall i :: 0 <= i < |s| ==> IsDigit(s[i])
    ensures n > 0 ==> s[0] != '0'
    decreases n
  {
    if n < 10 then [DigitChar(n)] else NatToDecimal(n / 10) + [DigitChar(n % 10)]
  }

  /** Reads a string of decimal digits back as a number. */
  function ParseDecimal(s: string): nat
    requires forall i :: 0 <= i < |s| ==> IsDigit(s[i])
    decreases |s|
  {
    if s == [] then 0 else ParseDecimal(s[..|s| - 1]) * 10 + DigitValue(s[|s| - 1])
  }

  /** Reading back the decimal form of `n` yields `n`. */
  lemma {:induction false} DecimalRoundTrip(n: nat)
    ensures ParseDecimal(NatToDecimal(n)) == n
    decreases n
  {
    if n >= 10 {
      var a := NatToDecimal(n / 10);
      var s := a + [DigitChar(n % 10)];
      assert s[..|s| - 1] == a;
      DecimalRoundTrip(n / 10);
      assert DigitValue(DigitChar(n % 10)) == n % 10;
    } else {
      var s := [DigitChar(n)];
      assert s[..0] == [];
    }
  }

  /** Different numbers print differently. */
  lemma DecimalInjective(a: nat, b: nat)
    requires NatToDecimal(a) == NatToDecimal(b)
    ensures a == b
  {
    DecimalRoundTrip(a);
    DecimalRoundTrip(b);
  }

  /** `String(v)` for a scalar. */
  function ToStr(v: Scalar): (r: string)
    ensures v.Str? ==> r == v.s
    ensures v.Num? && v.n >= 0 ==> r == NatToDecimal(v.n)
    ensures v.Num? && v.n < 0 ==> r == "-" + NatToDecimal(-v.n)
  {
    match v
    case Str(s) => s
    case Num(n) => if n >= 0 then NatToDecimal(n) else "-" + NatToDecimal(-n)
  }

  /** `String` is one-to-one on numbers: two numeric ids print alike only
      when they are equal. */
  lemma ToStrNumInjective(a: int, b: int)
    requires ToStr(Num(a)) == ToStr(Num(b))
    ensures a == b
  {
    var sa, sb := ToStr(Num(a)), ToStr(Num(b));
    if a >= 0 && b >= 0 {
      DecimalInjective(a, b);
    } else if a < 0 && b < 0 {
      assert NatToDecimal(-a) == sa[1..] == sb[1..] == NatToDecimal(-b);
      DecimalInjective(-a, -b);
    }
  }

  /** ASCII case folding of one character. */
  function LowerChar(c: char): (r: char)
  {
    if 'A' <= c <= 'Z' then ((c as int) + 32) as char else c
  }

  /** `s.toLowerCase()` restricted to ASCII letters. */
  function ToLower(s: string): (r: string)
    ensures |r| == |s|
    ensures forall i :: 0 <= i < |s| ==> r[i] == LowerChar(s[i])
    ensures forall i :: 0 <= i < |r| ==> !('A' <= r[i] <= 'Z')
  {
    seq(|s|, i requires 0 <= i < |s| => LowerChar(s[i]))
  }

  /** Lower-casing twice is lower-casing once. */
  lemma ToLowerIdempotent(s: string)
    ensures ToLower(ToLower(s)) == ToLower(s)
  {
  }
}
