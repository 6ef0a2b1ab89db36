/**
 * The few JavaScript value semantics the validation rule relies on:
 * optional values (`undefined`), the result of `parseInt` (an integer or
 * NaN), truthiness of a looked-up number, and the decimal rendering of an
 * integer inside a template literal.
 */
module Js {

  /** `undefined` (None) or a present value (Some). */
  datatype Option<+T> = None | Some(value: T) {
    function GetOr(default: T): T {
      match this
      case Some(v) => v
      case None => default
    }
  }

  /** What `parseInt(s, 10)` yields: an integer, or NaN when `s` does not parse. */
  datatype Num = Int(n: int) | NaN

  /** JavaScript truthiness of a number that may be `undefined`: 0 and `undefined` are falsy. */
  predicate Truthy(v: Option<int>) {
    v.Some? && v.value != 0
  }

  /** Truthiness of what `processDirective` returns: `undefined`, NaN and 0 are falsy. */
  predicate TruthyNum(v: Option<Num>) {
    v.Some? && v.value.Int? && v.value.n != 0
  }

  /** `Map.get` on a string-keyed map of numbers: the stored value, or `undefined`. */
  function Get(m: map<string, int>, key: string): Option<int> {
    if key in m then Some(m[key]) else None
  }

  predicate IsDigit(c: char) {
    '0' <= c <= '9'
  }

  function DigitChar(d: nat): (c: char)
    requires d < 10
    ensures IsDigit(c) && (c as int) - ('0' as int) == d
  {
    ['0', '1', '2', '3', '4', '5', '6', '7', '8', '9'][d]
  }

  /** The number a string of decimal digits denotes, most significant digit first. */
  function DecimalValue(s: string): nat
    requires forall i :: 0 <= i < |s| ==> IsDigit(s[i])
  {
    if s == [] then 0
    else
      assert IsDigit(s[|s| - 1]);
      DecimalValue(s[..|s| - 1]) * 10 + ((s[|s| - 1] as int) - ('0' as int))
  }

  /** `${n}` for a natural number: its shortest decimal digit string. */
  function NatToString(n: nat): (r: string)
    ensures |r| >= 1
    ensures forall i :: 0 <= i < |r| ==> IsDigit(r[i])
    ensures r[0] == '0' ==> r == "0"
    ensures DecimalValue(r) == n
  {
    if n < 10 then [DigitChar(n)]
    else
      var prefix := NatToString(n / 10);
      var r := prefix + [DigitChar(n % 10)];
      assert r[..|r| - 1] == prefix;
      r
  }

  /** `${i}` for an integer: a minus sign before the digits of a negative number. */
  function IntToString(i: int): (r: string)
    ensures |r| >= 1
    ensures i >= 0 ==> r == NatToString(i)
    ensures i < 0 ==> r[0] == '-' && r[1..] == NatToString(-i)
  {
    if i < 0 then "-" + NatToString(-i) else NatToString(i)
  }

  /** Rendering is injective: two integers with the same rendering are equal. */
  lemma IntToStringInjective(i: int, j: int)
    requires IntToString(i) == IntToString(j)
    ensures i == j
  {
    if i < 0 && j < 0 {
      assert NatToString(-i) == IntToString(i)[1..];
    } else if i >= 0 && j >= 0 {
      assert DecimalValue(NatToString(i)) == i;
    }
  }
}
