/**
 * The JavaScript values that can sit in a configuration record, and the
 * coercion `String(value)` applied to the ones that are not strings.
 */
module JsValues {

  /**
   * A JavaScript value as it appears in a record read from JSON. Numbers are
   * integers here. `String` prints one exactly, in plain decimal digits, only
   * while its magnitude is at most 2^53.
   */
  datatype JsValue =
    | JsString(s: string)
    | JsNumber(n: int)
    | JsBool(b: bool)
    | JsNull
    | JsUndefined
    | JsObject

  /** The character for a decimal digit. */
  function DigitChar(d: nat): char
    requires d < 10
  {
    "0123456789"[d]
  }

  /** Whether `c` is a decimal digit. */
  predicate IsDigit(c: char) { '0' <= c <= '9' }

  /** The value of a decimal digit character. */
  function DigitValue(c: char): nat
    requires IsDigit(c)
  {
    (c as int - '0' as int) as nat
  }

  predicate AllDigits(r: string) { forall i :: 0 <= i < |r| ==> IsDigit(r[i]) }

  /** A decimal integer numeral: digits, optionally preceded by a minus sign. */
  predicate IsNumeral(r: string)
  {
    if r != [] && r[0] == '-' then |r| > 1 && AllDigits(r[1..]) else r != [] && AllDigits(r)
  }

  /** Reads a numeral back as an integer. */
  function NumeralValue(r: string): int
    requires IsNumeral(r)
  {
    if r[0] == '-' then 0 - DecimalValue(r[1..]) else DecimalValue(r)
  }

  /** The decimal numeral of `n`: digits only, never empty, no leading zero. */
  function Decimal(n: nat): (r: string)
    ensures r != []
    ensures AllDigits(r)
    ensures |r| > 1 ==> r[0] != '0'
    decreases n
  {
    if n < 10 then [DigitChar(n)] else Decimal(n / 10) + [DigitChar(n % 10)]
  }

  /** Reads a string of decimal digits back as a number. */
  function DecimalValue(r: string): nat
    requires AllDigits(r)
  {
    if r == [] then 0 else 10 * DecimalValue(r[..|r| - 1]) + DigitValue(r[|r| - 1])
  }

  /** `Decimal` loses nothing: reading the numeral back gives the number. */
  lemma {:induction false} DecimalRoundTrip(n: nat)
    ensures DecimalValue(Decimal(n)) == n
    decreases n
  {
    var r := Decimal(n);
    if n < 10 {
      assert r[..|r| - 1] == [];
    } else {
      DecimalRoundTrip(n / 10);
      assert r[..|r| - 1] == Decimal(n / 10);
    }
  }

  /**
   * `String(value)` for the values above: a string is returned as it is,
   * integers in decimal with a leading `-` when negative. The string form of
   * any other value is never empty and holds no `$`.
   */
  function ToJsString(v: JsValue): (r: string)
    ensures v.JsString? ==> r == v.s
    ensures !v.JsString? ==> r != [] && '$' !in r
  {
    match v
    case JsString(s) => s
    case JsNumber(n) => if n < 0 then "-" + Decimal(-n) else Decimal(n)
    case JsBool(b) => if b then "true" else "false"
    case JsNull => "null"
    case JsUndefined => "undefined"
    case JsObject => "[object Object]"
  }

  /**
   * A number's string form is a numeral that reads back as the same number,
   * for every integer of magnitude at most 2^53, each of which is exactly a
   * JavaScript number.
   */
  lemma ToJsStringNumber(n: int)
    requires -9007199254740992 <= n <= 9007199254740992
    ensures IsNumeral(ToJsString(JsNumber(n))) && NumeralValue(ToJsString(JsNumber(n))) == n
  {
    var r := ToJsString(JsNumber(n));
    if n < 0 {
      DecimalRoundTrip(-n);
      assert r[1..] == Decimal(-n);
    } else {
      DecimalRoundTrip(n);
    }
  }
}
