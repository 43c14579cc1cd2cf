/**
 * The scraper's `converteste_data_relativa`: the posting date an ad shows as
 * Romanian relative text ("Astăzi la 10:15", "Ieri la 18:40", "acum 3 zile")
 * turned into a calendar date.
 *
 * Dates are proleptic Gregorian day numbers as Python's `date.toordinal`
 * counts them (1 is 1 January of year 1, `MaxOrdinal` is 31 December 9999),
 * and the current day `today` is a parameter instead of `datetime.now()`.
 */
module RelativeDate {
  import opened Wrappers
  import opened Numerals

  /** The ordinal of `date.max`. */
  const MaxOrdinal: int := 3652059

  /**
   * What the function produces: `None`, a date, or the `OverflowError` that
   * `today - timedelta(days=n)` raises when the result falls before year 1.
   */
  datatype Outcome = NoDate | Day(ordinal: int) | DateOverflow

  const Today: string := "ast\U{103}zi"
  const Yesterday: string := "ieri"
  const AcumPrefix: string := "acum "
  const ZileSuffix: string := " zile"

  /**
   * `str.lower` as far as it can make the words tested for: A-Z, "Ă" to
   * "ă", and "İ" to "i" followed by U+0307. Every other character is kept;
   * none of the others lower-cases into a character of those words.
   */
  function Lower(s: string): (t: string)
    ensures |t| >= |s|
  {
    if s == [] then []
    else LowerChar(s[0]) + Lower(s[1..])
  }

  function LowerChar(c: char): string {
    if 'A' <= c <= 'Z' then [(c as int + 32) as char]
    else if c == '\U{102}' then ['\U{103}']
    else if c == '\U{130}' then ['i', '\U{307}']
    else [c]
  }

  /** Python's `w in s`: `w` occurs in `s` at some position. */
  predicate Contains(s: string, w: string) {
    w <= s || (s != [] && Contains(s[1..], w))
  }

  /**
   * The day count of a match of `acum (\d+) zile` that starts at `p`.
   * The digit run is maximal: a digit cannot stand where the space after
   * it must, so backtracking to a shorter run never finds a match.
   */
  function AcumMatchAt(s: string, p: nat): Option<nat>
    requires p <= |s|
  {
    var t := s[p..];
    if !(AcumPrefix <= t) then None
    else
      var d := DigitRun(t[|AcumPrefix|..], 10);
      DigitRunIsLongestPrefix(t[|AcumPrefix|..], 10);
      if d != [] && ZileSuffix <= t[|AcumPrefix| + |d|..] then Some(Value(d, 10)) else None
  }

  /** `re.search`: the match that starts leftmost, from `p` on. */
  function FirstAcumMatch(s: string, p: nat): Option<nat>
    requires p <= |s|
    decreases |s| - p
  {
    if AcumMatchAt(s, p).Some? then AcumMatchAt(s, p)
    else if p == |s| then None
    else FirstAcumMatch(s, p + 1)
  }

  /** `today - timedelta(days=n)`, as a date or the overflow below year 1. */
  function DaysBefore(today: int, n: nat): (r: Outcome)
    requires 1 <= today <= MaxOrdinal
    ensures r.Day? ==> 1 <= r.ordinal <= today && r.ordinal + n == today
    ensures r.DateOverflow? <==> n >= today
    ensures n < today ==> r == Day(today - n)
  {
    if today - n >= 1 then Day(today - n) else DateOverflow
  }

  /**
   * `converteste_data_relativa(text)` on day `today`. A result that is a
   * date is never later than `today`, because the day count is never
   * negative.
   */
  function ConvertRelativeDate(text: Option<string>, today: int): (r: Outcome)
    requires 1 <= today <= MaxOrdinal
    ensures r.Day? ==> 1 <= r.ordinal <= today
  {
    if text.None? || text.value == [] then NoDate
    else
      var t := Lower(text.value);
      if Contains(t, Today) then Day(today)
      else if Contains(t, Yesterday) then DaysBefore(today, 1)
      else
        match FirstAcumMatch(t, 0)
        case None => NoDate
        case Some(n) => DaysBefore(today, n)
  }

  // ---- Properties ----

  /** `None` and the empty string have no date. */
  lemma NoTextNoDate(today: int)
    requires 1 <= today <= MaxOrdinal
    ensures ConvertRelativeDate(None, today) == NoDate
    ensures ConvertRelativeDate(Some(""), today) == NoDate
  {
  }

  lemma {:induction false} LowerAppend(a: string, b: string)
    ensures Lower(a + b) == Lower(a) + Lower(b)
  {
    if a != [] {
      assert (a + b)[1..] == a[1..] + b;
      LowerAppend(a[1..], b);
    } else {
      assert a + b == b;
    }
  }

  /** Lower-casing twice is lower-casing once. */
  lemma {:induction false} LowerIdempotent(s: string)
    ensures Lower(Lower(s)) == Lower(s)
  {
    if s != [] {
      var c := LowerChar(s[0]);
      LowerAppend(c, Lower(s[1..]));
      LowerIdempotent(s[1..]);
      LowerCharFixed(s[0]);
    }
  }

  /** A lower-cased character is left alone by a second lower-casing. */
  lemma LowerCharFixed(ch: char)
    ensures Lower(LowerChar(ch)) == LowerChar(ch)
  {
    var c := LowerChar(ch);
    if |c| == 2 {
      assert c == ['i'] + ['\U{307}'];
      LowerAppend(['i'], ['\U{307}']);
      assert Lower(['i']) == ['i'] by { assert ['i'][1..] == []; }
      assert Lower(['\U{307}']) == ['\U{307}'] by { assert ['\U{307}'][1..] == []; }
    } else {
      assert c[1..] == [];
    }
  }

  lemma {:induction false} LowerEmptyIff(s: string)
    ensures Lower(s) == [] <==> s == []
  {
  }

  /**
   * Matching ignores case: a text and its lower-case form give the same
   * result, so "ASTĂZI", "Astăzi" and "astăzi" all mean today.
   */
  lemma CaseInsensitive(s: string, today: int)
    requires 1 <= today <= MaxOrdinal
    ensures ConvertRelativeDate(Some(Lower(s)), today) == ConvertRelativeDate(Some(s), today)
  {
    LowerIdempotent(s);
    LowerEmptyIff(s);
  }

  /** "astăzi" anywhere means today, even next to "ieri" or a day count. */
  lemma TodayTakesPrecedence(s: string, today: int)
    requires 1 <= today <= MaxOrdinal
    requires Contains(Lower(s), Today)
    ensures ConvertRelativeDate(Some(s), today) == Day(today)
  {
    LowerEmptyIff(s);
  }

  /** Otherwise "ieri" anywhere means the day before, even next to a day count. */
  lemma YesterdayBeforeDayCount(s: string, today: int)
    requires 2 <= today <= MaxOrdinal
    requires !Contains(Lower(s), Today) && Contains(Lower(s), Yesterday)
    ensures ConvertRelativeDate(Some(s), today) == Day(today - 1)
  {
    LowerEmptyIff(s);
  }

  /** `FirstAcumMatch` is the leftmost match at or after `p`, and there is none when it says so. */
  lemma {:induction false} FirstAcumMatchIsLeftmost(s: string, p: nat)
    requires p <= |s|
    ensures FirstAcumMatch(s, p).None? <==> forall j :: p <= j <= |s| ==> AcumMatchAt(s, j).None?
    ensures FirstAcumMatch(s, p).Some? ==>
      exists i :: p <= i <= |s| && AcumMatchAt(s, i) == FirstAcumMatch(s, p)
        && forall j :: p <= j < i ==> AcumMatchAt(s, j).None?
    decreases |s| - p
  {
    if AcumMatchAt(s, p).None? && p < |s| {
      FirstAcumMatchIsLeftmost(s, p + 1);
      if FirstAcumMatch(s, p).Some? {
        var i :| p + 1 <= i <= |s| && AcumMatchAt(s, i) == FirstAcumMatch(s, p + 1)
          && forall j :: p + 1 <= j < i ==> AcumMatchAt(s, j).None?;
        assert forall j :: p <= j < i ==> AcumMatchAt(s, j).None?;
      }
    }
  }

  /** "acum N zile" where it stands matches with N days, whatever follows it. */
  lemma AcumMatchOfDigits(pre: string, n: nat, post: string)
    ensures var s := pre + AcumPrefix + NatToString(n) + ZileSuffix + post;
      AcumMatchAt(s, |pre|) == Some(n)
  {
    var s := pre + AcumPrefix + NatToString(n) + ZileSuffix + post;
    var t := s[|pre|..];
    var d := NatToString(n);
    assert t == AcumPrefix + (d + (ZileSuffix + post));
    assert t[|AcumPrefix|..] == d + (ZileSuffix + post);
    DigitRunStops(d, ZileSuffix + post, 10);
    assert t[|AcumPrefix| + |d|..] == ZileSuffix + post;
    ValueOfNatToString(n);
  }

  /** "acum N zile" on its own is N days back. */
  lemma DayCountBack(today: int, n: nat)
    requires 1 <= today <= MaxOrdinal && n < today
    ensures ConvertRelativeDate(Some(AcumPrefix + NatToString(n) + ZileSuffix), today) == Day(today - n)
  {
    DayCountText(n);
  }

  /** A day count reaching back before the first day of the calendar raises the overflow instead of a date. */
  lemma DayCountOverflow(today: int, n: nat)
    requires 1 <= today <= MaxOrdinal && n >= today
    ensures ConvertRelativeDate(Some(AcumPrefix + NatToString(n) + ZileSuffix), today) == DateOverflow
  {
    DayCountText(n);
  }

  /** "Acum 3 zile", capital "A" and all, is three days back. */
  lemma DayCountExample(today: int)
    requires 4 <= today <= MaxOrdinal
    ensures ConvertRelativeDate(Some("Acum 3 zile"), today) == Day(today - 3)
  {
    var rest := "cum 3 zile";
    assert NatToString(3) == "3";
    assert "Acum 3 zile" == ['A'] + rest;
    assert ['a'] + rest == AcumPrefix + NatToString(3) + ZileSuffix;
    ExampleRestLowerCase(rest);
    Capitalised(rest);
    DayCountBack(today, 3);
    CaseInsensitive("Acum 3 zile", today);
  }

  /** Capitalising the first letter of a lower-case text does not change its lower-case form. */
  lemma Capitalised(rest: string)
    requires Lower(rest) == rest
    ensures Lower(['A'] + rest) == ['a'] + rest
  {
    LowerAppend(['A'], rest);
    assert ['A'][1..] == [];
  }

  lemma ExampleRestLowerCase(rest: string)
    requires rest == "cum 3 zile"
    ensures Lower(rest) == rest
  {
    LowerOfLowerCase(rest);
  }

  /** The text "acum N zile" is its own lower-case form, has neither "astăzi" nor "ieri", and matches with N. */
  lemma DayCountText(n: nat)
    ensures var s := AcumPrefix + NatToString(n) + ZileSuffix;
      Lower(s) == s && s != [] && !Contains(s, Today) && !Contains(s, Yesterday) && FirstAcumMatch(s, 0) == Some(n)
  {
    DayCountLowerCase(NatToString(n));
    DayCountHasNoYesterday(NatToString(n));
    DayCountMatch(n);
  }

  lemma DayCountLowerCase(d: string)
    requires AllDigits(d, 10)
    ensures var s := AcumPrefix + d + ZileSuffix; Lower(s) == s && !Contains(s, Today)
  {
    var s := AcumPrefix + d + ZileSuffix;
    DayCountChars(d);
    LowerOfLowerCase(s);
    NotContainsChar(s, Today, 3);
  }

  lemma DayCountMatch(n: nat)
    ensures FirstAcumMatch(AcumPrefix + NatToString(n) + ZileSuffix, 0) == Some(n)
  {
    var s := AcumPrefix + NatToString(n) + ZileSuffix;
    AcumMatchOfDigits("", n, "");
    assert s == "" + AcumPrefix + NatToString(n) + ZileSuffix + "";
  }

  lemma DayCountChars(d: string)
    requires AllDigits(d, 10)
    ensures var s := AcumPrefix + d + ZileSuffix;
      forall i :: 0 <= i < |s| ==> !('A' <= s[i] <= 'Z') && s[i] != '\U{102}' && s[i] != '\U{130}' && s[i] != '\U{103}'
  {
    var s := AcumPrefix + d + ZileSuffix;
    forall i | 0 <= i < |s| ensures !('A' <= s[i] <= 'Z') && s[i] != '\U{102}' && s[i] != '\U{130}' && s[i] != '\U{103}'
    {
      if i < |AcumPrefix| { assert s[i] == AcumPrefix[i]; }
      else if i < |AcumPrefix| + |d| { assert s[i] == d[i - |AcumPrefix|]; }
      else { assert s[i] == ZileSuffix[i - |AcumPrefix| - |d|]; }
    }
  }

  /** Text with no upper-case letter that lower-casing changes is its own lower-case form. */
  lemma {:induction false} LowerOfLowerCase(s: string)
    requires forall i :: 0 <= i < |s| ==> !('A' <= s[i] <= 'Z') && s[i] != '\U{102}' && s[i] != '\U{130}'
    ensures Lower(s) == s
  {
    if s != [] {
      LowerOfLowerCase(s[1..]);
    }
  }

  /** A word with a character that `s` lacks does not occur in `s`. */
  lemma {:induction false} NotContainsChar(s: string, w: string, m: nat)
    requires m < |w| && forall i :: 0 <= i < |s| ==> s[i] != w[m]
    ensures !Contains(s, w)
  {
    if s != [] {
      NotContainsChar(s[1..], w, m);
      if |w| <= |s| {
        assert s[m] != w[m];
      }
    }
  }

  /** "acum N zile" has no "ieri": its only "i" is followed by "l". */
  lemma DayCountHasNoYesterday(d: string)
    requires AllDigits(d, 10)
    ensures !Contains(AcumPrefix + d + ZileSuffix, Yesterday)
  {
    var s := AcumPrefix + d + ZileSuffix;
    forall i | 0 <= i < |s| - 3 ensures s[i] != 'i' {
      if i < |AcumPrefix| { assert s[i] == AcumPrefix[i]; }
      else if i < |AcumPrefix| + |d| { assert s[i] == d[i - |AcumPrefix|]; }
      else { assert s[i] == ZileSuffix[i - |AcumPrefix| - |d|]; }
    }
    assert s[|s| - 4..] == "zile";
    NoYesterdayFrom(s, 0);
    assert s[0..] == s;
  }

  lemma {:induction false} NoYesterdayFrom(s: string, k: nat)
    requires k <= |s| && |s| >= 8
    requires forall i :: 0 <= i < |s| - 3 ==> s[i] != 'i'
    requires s[|s| - 4..] == "zile"
    ensures !Contains(s[k..], Yesterday)
    decreases |s| - k
  {
    var t := s[k..];
    if t != [] {
      assert t[1..] == s[k + 1..];
      NoYesterdayFrom(s, k + 1);
      if k < |s| - 3 {
        assert t[0] == s[k];
      } else {
        assert s[|s| - 3] == "zile"[1];
      }
    }
  }
}
