/**
 * Digit runs and their values in base 10 and base 16, and the decimal
 * rendering of natural numbers. Shared by the JavaScript `parseInt` model,
 * the SQL `CAST(... AS VARCHAR)` of a room count and the Python `int()` of
 * the scraper's day count.
 */
module Numerals {

  predicate IsDecimalDigit(c: char) { '0' <= c <= '9' }

  /** `c` is a digit of `base`: 0-9, and for base 16 also a-f and A-F. */
  predicate IsDigitIn(c: char, base: nat) {
    IsDecimalDigit(c) || (base == 16 && (('a' <= c <= 'f') || ('A' <= c <= 'F')))
  }

  /** The value of a digit; 0 for a character that is no digit. */
  function DigitValue(c: char): (v: nat)
    ensures v < 16
  {
    if IsDecimalDigit(c) then c as int - '0' as int
    else if 'a' <= c <= 'f' then c as int - 'a' as int + 10
    else if 'A' <= c <= 'F' then c as int - 'A' as int + 10
    else 0
  }

  function DigitChar(d: nat): (c: char)
    requires d < 10
    ensures IsDecimalDigit(c) && DigitValue(c) == d
  {
    ('0' as int + d) as char
  }

  predicate AllDigits(s: string, base: nat) {
    forall i :: 0 <= i < |s| ==> IsDigitIn(s[i], base)
  }

  /** The longest prefix of `s` made of digits of `base`. */
  function DigitRun(s: string, base: nat): string {
    if s != [] && IsDigitIn(s[0], base) then [s[0]] + DigitRun(s[1..], base) else []
  }

  /** The run is a prefix, all digits, and stops at the end or at a non-digit. */
  lemma {:induction false} DigitRunIsLongestPrefix(s: string, base: nat)
    ensures var d := DigitRun(s, base);
      d <= s && AllDigits(d, base) && (|d| == |s| || !IsDigitIn(s[|d|], base))
  {
    if s != [] && IsDigitIn(s[0], base) {
      DigitRunIsLongestPrefix(s[1..], base);
    }
  }

  /** The number a digit string denotes, most significant digit first. */
  function Value(d: string, base: nat): nat {
    if d == [] then 0 else Value(d[..|d| - 1], base) * base + DigitValue(d[|d| - 1])
  }

  /** Decimal rendering without leading zeros. */
  function NatToString(n: nat): (s: string)
    ensures s != [] && AllDigits(s, 10)
  {
    if n < 10 then [DigitChar(n)] else NatToString(n / 10) + [DigitChar(n % 10)]
  }

  lemma {:induction false} ValueOfNatToString(n: nat)
    ensures Value(NatToString(n), 10) == n
  {
    if n >= 10 {
      var s := NatToString(n);
      var init := NatToString(n / 10);
      assert s[..|s| - 1] == init;
      ValueOfNatToString(n / 10);
    }
  }

  /**
   * A digit run stops at the first character that is not a digit: the run
   * of `d + rest` is `d` when `d` is all digits and `rest` does not start
   * with one.
   */
  lemma {:induction false} DigitRunStops(d: string, rest: string, base: nat)
    requires AllDigits(d, base)
    requires rest == [] || !IsDigitIn(rest[0], base)
    ensures DigitRun(d + rest, base) == d
  {
    if d != [] {
      assert (d + rest)[1..] == d[1..] + rest;
      DigitRunStops(d[1..], rest, base);
    } else {
      assert d + rest == rest;
    }
  }
}
