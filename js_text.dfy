/**
 * The pieces of JavaScript's string and number built-ins that the filter
 * compiler and the handlers rely on: `String.prototype.trim`,
 * `String.prototype.toLowerCase` (as far as a comparison with "asc" can
 * tell), the global `parseInt`, and the decimal form a number prints as.
 */
module JsText {
  import opened Wrappers
  import opened Numerals

  /** ECMAScript WhiteSpace and LineTerminator code points: what `trim` strips and `parseInt` skips. */
  predicate IsWhitespace(c: char) {
    c == '\t' || c == '\n' || c == '\U{B}' || c == '\U{C}' || c == '\r' || c == ' '
    || c == '\U{A0}' || c == '\U{1680}' || ('\U{2000}' <= c <= '\U{200A}')
    || c == '\U{2028}' || c == '\U{2029}' || c == '\U{202F}' || c == '\U{205F}'
    || c == '\U{3000}' || c == '\U{FEFF}'
  }

  predicate IsBlank(s: string) {
    forall i :: 0 <= i < |s| ==> IsWhitespace(s[i])
  }

  /** `s` without its leading whitespace. */
  function TrimStart(s: string): string {
    if s != [] && IsWhitespace(s[0]) then TrimStart(s[1..]) else s
  }

  /** `s` without its trailing whitespace. */
  function TrimEnd(s: string): string {
    if s != [] && IsWhitespace(s[|s| - 1]) then TrimEnd(s[..|s| - 1]) else s
  }

  /** What `TrimStart` removes is whitespace, and what it keeps starts with a non-whitespace character. */
  lemma {:induction false} TrimStartShape(s: string)
    ensures var t := TrimStart(s);
      |t| <= |s| && t == s[|s| - |t|..] && IsBlank(s[..|s| - |t|]) && (t == [] || !IsWhitespace(t[0]))
  {
    if s != [] && IsWhitespace(s[0]) {
      TrimStartShape(s[1..]);
      var t := TrimStart(s);
      forall i | 0 <= i < |s| - |t| ensures IsWhitespace(s[i]) {
        if i > 0 { assert s[i] == s[1..][..|s| - 1 - |t|][i - 1]; }
      }
    }
  }

  /** What `TrimEnd` removes is whitespace, and what it keeps ends with a non-whitespace character. */
  lemma {:induction false} TrimEndShape(s: string)
    ensures var t := TrimEnd(s);
      t <= s && IsBlank(s[|t|..]) && (t == [] || !IsWhitespace(t[|t| - 1]))
  {
    if s != [] && IsWhitespace(s[|s| - 1]) {
      TrimEndShape(s[..|s| - 1]);
      var t := TrimEnd(s);
      forall i | |t| <= i < |s| ensures IsWhitespace(s[i]) {
        if i < |s| - 1 { assert s[i] == s[..|s| - 1][|t|..][i - |t|]; }
      }
    }
  }

  /** `String.prototype.trim`. */
  function Trim(s: string): string {
    TrimEnd(TrimStart(s))
  }

  /** `s.trim() !== ''` holds exactly when `s` has a character that is not whitespace. */
  lemma TrimEmptyIffBlank(s: string)
    ensures Trim(s) == [] <==> IsBlank(s)
  {
    var t := TrimStart(s);
    TrimStartShape(s);
    TrimEndShape(t);
    if Trim(s) == [] {
      assert IsBlank(t[0..]);
      assert t == [];
      assert s == s[..|s|];
    } else {
      var u := Trim(s);
      assert !IsWhitespace(u[0]);
      assert u[0] == t[0] == s[|s| - |t|];
    }
  }

  /**
   * ASCII upper-case letters to lower case, everything else unchanged. For
   * deciding whether `s.toLowerCase() === w` with `w` an ASCII word that has
   * no "i" and no "k" this agrees with the full Unicode `toLowerCase`: the
   * only other characters that lower-case into ASCII are U+0130 (to "i" and a
   * combining dot) and the Kelvin sign (to "k").
   */
  function ToLowerAscii(s: string): (t: string)
    ensures |t| == |s|
  {
    if s == [] then []
    else [if 'A' <= s[0] <= 'Z' then (s[0] as int + 32) as char else s[0]] + ToLowerAscii(s[1..])
  }

  /**
   * The radix argument of `parseInt`: absent (the calls on `rooms` and
   * `limit`), where a "0x" or "0X" prefix switches to base 16, or 10 (all
   * other calls).
   */
  datatype Radix = Unspecified | Ten

  /** `t` without the sign `parseInt` accepts in front of the digits. */
  function Unsigned(t: string): string {
    if t != [] && (t[0] == '-' || t[0] == '+') then t[1..] else t
  }

  /** Whether the digits are read in base 16 after a "0x" or "0X" prefix. */
  predicate HasHexPrefix(u: string, radix: Radix) {
    radix == Unspecified && |u| >= 2 && u[0] == '0' && (u[1] == 'x' || u[1] == 'X')
  }

  /** `parseInt` on a string whose leading whitespace is already gone. */
  function ParseTrimmed(t: string, radix: Radix): Option<int> {
    var u := Unsigned(t);
    var base := if HasHexPrefix(u, radix) then 16 else 10;
    var d := DigitRun(if HasHexPrefix(u, radix) then u[2..] else u, base);
    if d == [] then None
    else if t[0] == '-' then Some(0 - Value(d, base))
    else Some(Value(d, base))
  }

  /**
   * The global `parseInt`: skip leading whitespace, take an optional sign,
   * then the longest run of digits; `None` stands for `NaN` (no digits).
   * `-0` is the integer 0 here.
   */
  function ParseInt(s: string, radix: Radix): Option<int> {
    ParseTrimmed(TrimStart(s), radix)
  }

  /** How `String(n)` prints an integer. */
  function IntToString(n: int): (s: string)
    ensures s != [] && (s[0] == '-' <==> n < 0)
    ensures forall i :: (if n < 0 then 1 else 0) <= i < |s| ==> IsDecimalDigit(s[i])
  {
    if n < 0 then "-" + NatToString(-n) else NatToString(n)
  }

  /** A blank string parses to `NaN`, so the `trim() !== ''` test before `parseInt(rooms)` adds nothing. */
  lemma ParseIntOfBlank(s: string, radix: Radix)
    requires IsBlank(s)
    ensures ParseInt(s, radix) == None
  {
    TrimStartShape(s);
  }

  /** Leading whitespace does not change what `parseInt` returns. */
  lemma ParseIntSkipsWhitespace(w: string, s: string, radix: Radix)
    requires IsBlank(w)
    ensures ParseInt(w + s, radix) == ParseInt(s, radix)
  {
    TrimStartSkips(w, s);
  }

  lemma {:induction false} TrimStartSkips(w: string, s: string)
    requires IsBlank(w)
    ensures TrimStart(w + s) == TrimStart(s)
  {
    if w != [] {
      assert (w + s)[1..] == w[1..] + s;
      TrimStartSkips(w[1..], s);
    } else {
      assert w + s == s;
    }
  }

  /**
   * `parseInt` reads back the decimal form of any integer and ignores
   * whatever follows it from the first character that is not a decimal
   * digit (so "12abc", "5x" and "1e5" parse to 12, 5 and 1). Without a
   * radix, a lone "0" followed by "x" or "X" is a hexadecimal prefix
   * instead, hence the second requirement.
   */
  lemma ParseIntOfIntToString(n: int, rest: string, radix: Radix)
    requires rest == [] || !IsDecimalDigit(rest[0])
    requires radix == Ten || n != 0 || rest == [] || (rest[0] != 'x' && rest[0] != 'X')
    ensures ParseInt(IntToString(n) + rest, radix) == Some(n)
  {
    var m: nat := if n < 0 then -n else n;
    var s := IntToString(n) + rest;
    IntToStringShape(n, rest);
    ValueOfNatToString(m);
    ParseTrimmedDigits(s, NatToString(m), rest, radix);
  }

  /** The decimal form starts with no whitespace and, after its sign, is all digits. */
  lemma IntToStringShape(n: int, rest: string)
    ensures var s := IntToString(n) + rest;
      TrimStart(s) == s && s != [] && (s[0] == '-' <==> n < 0)
      && Unsigned(s) == NatToString(if n < 0 then -n else n) + rest
  {
    var s := IntToString(n) + rest;
    assert s[0] == IntToString(n)[0];
    if n < 0 { assert s == "-" + (NatToString(-n) + rest); }
  }

  /** The unsigned part of `t` is a run of decimal digits followed by a non-digit. */
  lemma ParseTrimmedDigits(t: string, digits: string, rest: string, radix: Radix)
    requires t != [] && Unsigned(t) == digits + rest
    requires digits != [] && AllDigits(digits, 10)
    requires rest == [] || !IsDecimalDigit(rest[0])
    requires radix == Ten || digits != "0" || rest == [] || (rest[0] != 'x' && rest[0] != 'X')
    ensures ParseTrimmed(t, radix) == Some(if t[0] == '-' then 0 - Value(digits, 10) else Value(digits, 10))
  {
    var u := digits + rest;
    if |u| >= 2 {
      if |digits| >= 2 {
        assert u[1] == digits[1];
      } else if digits == "0" {
        assert u[1] == rest[0];
      } else {
        assert u[0] == digits[0] != '0';
      }
    }
    assert !HasHexPrefix(u, radix);
    DigitRunStops(digits, rest, 10);
  }
}
