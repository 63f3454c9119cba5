/** Swift's failable initialiser `Int(_ text: String)` on a 64-bit platform:
    an optional `+` or `-`, then one or more ASCII decimal digits, and nothing
    else; a value outside the 64-bit range gives nil. */
module SwiftInt {
  import opened Wrappers

  const IntMin: int := -0x8000_0000_0000_0000
  const IntMax: int := 0x7FFF_FFFF_FFFF_FFFF

  predicate IsDigit(c: char) {
    '0' <= c <= '9'
  }

  predicate IsSign(c: char) {
    c == '+' || c == '-'
  }

  predicate AllDigits(s: string) {
    forall i :: 0 <= i < |s| ==> IsDigit(s[i])
  }

  function DigitValue(c: char): (d: nat)
    requires IsDigit(c)
    ensures d < 10
  {
    (c as int) - ('0' as int)
  }

  function DigitChar(d: nat): (c: char)
    requires d < 10
    ensures IsDigit(c) && DigitValue(c) == d
  {
    (('0' as int) + d) as char
  }

  /** The value of a string of decimal digits, most significant first. */
  function DigitsValue(s: string): nat
    requires AllDigits(s)
  {
    if s == [] then 0 else 10 * DigitsValue(s[..|s| - 1]) + DigitValue(s[|s| - 1])
  }

  /** `Int(s)`. */
  function ParseInt(s: string): (r: Option<int>)
    ensures r.Some? ==> IntMin <= r.value <= IntMax
    ensures r.Some? ==> |s| > 0 && (IsDigit(s[0]) || (IsSign(s[0]) && |s| > 1))
    ensures r.Some? ==> forall i :: 0 < i < |s| ==> IsDigit(s[i])
    ensures r.Some? && r.value < 0 ==> s[0] == '-'
  {
    var negative := |s| > 0 && s[0] == '-';
    var digits := if |s| > 0 && IsSign(s[0]) then s[1..] else s;
    if digits == [] || !AllDigits(digits) then None
    else
      var magnitude: int := DigitsValue(digits);
      var v: int := if negative then -magnitude else magnitude;
      if IntMin <= v <= IntMax then Some(v) else None
  }

  /** The canonical decimal spelling of a natural number (what AppleScript's
      `tabIndex as string` produces for a tab index). */
  function DecimalString(n: nat): (s: string)
    ensures |s| > 0 && AllDigits(s)
  {
    if n < 10 then [DigitChar(n)] else DecimalString(n / 10) + [DigitChar(n % 10)]
  }

  /** The decimal spelling of any integer, with a leading `-` when negative. */
  function IntString(n: int): string {
    if n < 0 then "-" + DecimalString(-n) else DecimalString(n)
  }

  lemma {:induction false} DecimalStringValue(n: nat)
    ensures DigitsValue(DecimalString(n)) == n
  {
    var s := DecimalString(n);
    if n >= 10 {
      DecimalStringValue(n / 10);
      assert s[..|s| - 1] == DecimalString(n / 10);
    }
  }

  /** Reading back a spelled-out integer gives that integer, for every value
      a 64-bit Int can hold. */
  lemma ParseIntString(n: int)
    requires IntMin <= n <= IntMax
    ensures ParseInt(IntString(n)) == Some(n)
  {
    if n < 0 {
      DecimalStringValue(-n);
      assert ("-" + DecimalString(-n))[1..] == DecimalString(-n);
    } else {
      DecimalStringValue(n);
    }
  }

  /** Nothing outside the 64-bit range is ever read back. */
  lemma ParseIntOverflow(n: int)
    requires n < IntMin || IntMax < n
    ensures ParseInt(IntString(n)) == None
  {
    if n < 0 {
      DecimalStringValue(-n);
      assert ("-" + DecimalString(-n))[1..] == DecimalString(-n);
    } else {
      DecimalStringValue(n);
    }
  }
}
