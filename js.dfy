// The few JavaScript built-ins whose exact behaviour the core depends on:
// the end argument of Array.prototype.slice, String.prototype.toLowerCase on
// ASCII letters, and the decimal form of a non-negative integer in a
// template literal.
module Js {

  import opened Basics

  /** The number of elements `array.slice(0, end)` keeps from an array of
      length `len`: a negative end counts back from the length, and the result
      is clamped to the range 0..len. */
  function SliceEnd(end: int, len: nat): (k: nat)
    ensures k <= len
  {
    if end < 0 then (if len + end < 0 then 0 else len + end)
    else if end < len then end else len
  }

  /** `slice(0, a)` never keeps more than `slice(0, b)` when `a <= b` and both
      have the same sign (from -1 to 0 the kept length drops from len - 1 to 0). */
  lemma SliceEndMonotone(a: int, b: int, len: nat)
    requires a <= b && (0 <= a || b < 0)
    ensures SliceEnd(a, len) <= SliceEnd(b, len)
  {
  }

  function LowerChar(c: char): char {
    if 'A' <= c <= 'Z' then (c as int + 32) as char else c
  }

  /** `s.toLowerCase()` restricted to ASCII: upper-case letters become lower
      case and every other character is kept. */
  function ToLower(s: string): (t: string)
    ensures |t| == |s|
    ensures forall i :: 0 <= i < |s| ==> t[i] == LowerChar(s[i])
  {
    if s == [] then [] else [LowerChar(s[0])] + ToLower(s[1..])
  }

  /** Lower-casing twice is lower-casing once. */
  lemma ToLowerIdempotent(s: string)
    ensures ToLower(ToLower(s)) == ToLower(s)
  {
  }

  predicate IsDigit(c: char) { '0' <= c <= '9' }

  predicate AllDigits(s: string) {
    forall i :: 0 <= i < |s| ==> IsDigit(s[i])
  }

  function DigitChar(d: nat): (c: char)
    requires d < 10
    ensures IsDigit(c) && c as int - '0' as int == d
  {
    ('0' as int + d) as char
  }

  /** The number a string of decimal digits denotes. */
  function DigitsValue(s: string): nat
    requires AllDigits(s)
  {
    if s == [] then 0 else DigitsValue(s[..|s| - 1]) * 10 + (s[|s| - 1] as int - '0' as int)
  }

  /** `${n}` for a non-negative integer: its decimal digits, without leading
      zeros. */
  function NumberToString(n: nat): (s: string)
    ensures |s| > 0 && AllDigits(s)
    ensures DigitsValue(s) == n
    ensures s[0] == '0' ==> n == 0
    ensures |s| > 1 ==> s[0] != '0'
    decreases n
  {
    if n < 10 then [DigitChar(n)]
    else
      var prefix := NumberToString(n / 10);
      var s := prefix + [DigitChar(n % 10)];
      assert s[..|s| - 1] == prefix;
      s
  }
}
