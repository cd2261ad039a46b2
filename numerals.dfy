/**
 * Rendering of unsigned integers as digit strings, as Rust's `to_string()`
 * (base 10) and `{:x}` (base 16, lower case) print them: most significant
 * digit first, no leading zeros, "0" for zero. The parser is the inverse
 * used to show that the rendering loses nothing.
 */
module Numerals {
  import opened Wrappers

  predicate ValidBase(base: nat) { 2 <= base <= 16 }

  /** The character of one digit: '0'..'9', then 'a'..'f'. */
  function DigitChar(d: nat): (c: char)
    requires d < 16
    ensures c != '_'
  {
    if d < 10 then ('0' as int + d) as char else ('a' as int + d - 10) as char
  }

  /** The value of one digit character in `base`, or None if it is not one. */
  function DigitValue(c: char, base: nat): (r: Option<nat>)
    requires ValidBase(base)
    ensures r.Some? ==> r.value < base
  {
    if '0' <= c <= '9' && (c as int - '0' as int) < base then Some(c as int - '0' as int)
    else if 'a' <= c <= 'f' && (c as int - 'a' as int + 10) < base then Some(c as int - 'a' as int + 10)
    else None
  }

  function ToDigits(n: nat, base: nat): (s: string)
    requires ValidBase(base)
    decreases n
  {
    if n < base then [DigitChar(n)] else ToDigits(n / base, base) + [DigitChar(n % base)]
  }

  function ParseDigits(s: string, base: nat): Option<nat>
    requires ValidBase(base)
    decreases |s|
  {
    if |s| == 0 then None
    else
      match DigitValue(s[|s| - 1], base)
      case None => None
      case Some(d) =>
        if |s| == 1 then Some(d)
        else
          match ParseDigits(s[..|s| - 1], base)
          case None => None
          case Some(m) => Some(m * base + d)
  }

  function Pow(b: nat, k: nat): nat
  {
    if k == 0 then 1 else b * Pow(b, k - 1)
  }

  lemma DigitRoundTrip(d: nat, base: nat)
    requires ValidBase(base) && d < base
    ensures DigitValue(DigitChar(d), base) == Some(d)
  {
  }

  /** Every character of a rendering is a digit of the base (in particular never '_'). */
  lemma {:induction false} ToDigitsChars(n: nat, base: nat)
    requires ValidBase(base)
    ensures |ToDigits(n, base)| >= 1
    ensures forall i :: 0 <= i < |ToDigits(n, base)| ==> DigitValue(ToDigits(n, base)[i], base).Some?
    decreases n
  {
    if n < base {
      DigitRoundTrip(n, base);
    } else {
      ToDigitsChars(n / base, base);
      DigitRoundTrip(n % base, base);
    }
  }

  /** Parsing a rendering gives back the number. */
  lemma {:induction false} ParseToDigits(n: nat, base: nat)
    requires ValidBase(base)
    ensures ParseDigits(ToDigits(n, base), base) == Some(n)
    decreases n
  {
    var s := ToDigits(n, base);
    if n < base {
      DigitRoundTrip(n, base);
    } else {
      var p := ToDigits(n / base, base);
      ToDigitsChars(n / base, base);
      assert s == p + [DigitChar(n % base)];
      assert s[..|s| - 1] == p;
      assert s[|s| - 1] == DigitChar(n % base);
      DigitRoundTrip(n % base, base);
      DivMod(n, base);
      ParseToDigits(n / base, base);
      ParseStep(s, base, n / base, n % base);
    }
  }

  lemma DivMod(n: nat, b: nat)
    requires 2 <= b <= n
    ensures n / b < n
    ensures (n / b) * b + n % b == n
  {
  }

  /** One step of the parser: a known prefix value and a valid last digit. */
  lemma ParseStep(s: string, base: nat, m: nat, d: nat)
    requires ValidBase(base) && |s| > 1
    requires ParseDigits(s[..|s| - 1], base) == Some(m)
    requires DigitValue(s[|s| - 1], base) == Some(d)
    ensures ParseDigits(s, base) == Some(m * base + d)
  {
  }

  /** Distinct numbers render as distinct strings. */
  lemma ToDigitsInjective(a: nat, b: nat, base: nat)
    requires ValidBase(base)
    ensures ToDigits(a, base) == ToDigits(b, base) <==> a == b
  {
    ParseToDigits(a, base);
    ParseToDigits(b, base);
  }

  lemma DivBelow(n: nat, b: nat, q: nat)
    requires 2 <= b && n < b * q
    ensures n / b < q
  {
  }

  /** A number below base^k renders in at most k digits. */
  lemma {:induction false} ToDigitsLength(n: nat, base: nat, k: nat)
    requires ValidBase(base) && 1 <= k && n < Pow(base, k)
    ensures |ToDigits(n, base)| <= k
    decreases k
  {
    if n >= base {
      assert k != 1;
      DivBelow(n, base, Pow(base, k - 1));
      ToDigitsLength(n / base, base, k - 1);
    }
  }
}
