/**
 * Text helpers shared by both generators: ASCII case mapping (`str.lower`,
 * `str.upper`), decimal rendering of integers (`str(n)` in an f-string) and
 * `sep.join(parts)`.
 */
module Strings {

  predicate IsUpperAscii(c: char) { 'A' <= c <= 'Z' }
  predicate IsLowerAscii(c: char) { 'a' <= c <= 'z' }

  function LowerChar(c: char): char {
    if IsUpperAscii(c) then (c as int + 32) as char else c
  }

  function UpperChar(c: char): char {
    if IsLowerAscii(c) then (c as int - 32) as char else c
  }

  /**
   * `s.lower()` on ASCII letters: the result holds no upper-case letter, each
   * upper-case letter becomes the lower-case letter it is the capital of, and
   * every other character is kept.
   */
  function Lower(s: string): (r: string)
    ensures |r| == |s|
    ensures forall i :: 0 <= i < |r| ==> !IsUpperAscii(r[i])
    ensures forall i :: 0 <= i < |s| ==>
      if IsUpperAscii(s[i]) then IsLowerAscii(r[i]) && UpperChar(r[i]) == s[i] else r[i] == s[i]
  {
    seq(|s|, i requires 0 <= i < |s| => LowerChar(s[i]))
  }

  /**
   * `s.upper()` on ASCII letters: the result holds no lower-case letter, each
   * lower-case letter becomes its capital, and every other character is kept.
   */
  function Upper(s: string): (r: string)
    ensures |r| == |s|
    ensures forall i :: 0 <= i < |r| ==> !IsLowerAscii(r[i])
    ensures forall i :: 0 <= i < |s| ==>
      if IsLowerAscii(s[i]) then IsUpperAscii(r[i]) && LowerChar(r[i]) == s[i] else r[i] == s[i]
  {
    seq(|s|, i requires 0 <= i < |s| => UpperChar(s[i]))
  }

  /** Upper-casing forgets a previous lower-casing: `s.lower().upper() == s.upper()`. */
  lemma UpperOfLower(s: string)
    ensures Upper(Lower(s)) == Upper(s)
  {
  }

  /** `s[0].lower() + s[1:]` */
  function LowerFirst(s: string): (r: string)
    requires |s| > 0
    ensures |r| == |s| && r[0] == LowerChar(s[0]) && r[1..] == s[1..]
  {
    [LowerChar(s[0])] + s[1..]
  }

  /** `s[0].upper() + s[1:]` */
  function Capitalize(s: string): (r: string)
    requires |s| > 0
    ensures |r| == |s| && r[0] == UpperChar(s[0]) && r[1..] == s[1..]
  {
    [UpperChar(s[0])] + s[1..]
  }

  /** Capitalising a name whose first letter was lowered from an upper-case letter restores it. */
  lemma CapitalizeLowerFirst(s: string)
    requires |s| > 0 && IsUpperAscii(s[0])
    ensures Capitalize(LowerFirst(s)) == s
  {
  }

  /** Changing the case of the first character never introduces or removes a '$'. */
  lemma FirstCaseKeepsDollar(s: string)
    requires |s| > 0 && '$' !in s
    ensures '$' !in LowerFirst(s) && '$' !in Capitalize(s)
  {
    assert s == [s[0]] + s[1..];
  }

  // ---------------------------------------------------------------------------
  // Decimal rendering of integers, as `str(n)` / an f-string prints an int.

  predicate IsDigit(c: char) { '0' <= c <= '9' }

  function DigitChar(d: nat): (c: char)
    requires d < 10
    ensures IsDigit(c) && c as int - '0' as int == d
  {
    ('0' as int + d) as char
  }

  function NatToString(n: nat): string
    decreases n
  {
    if n < 10 then [DigitChar(n)] else NatToString(n / 10) + [DigitChar(n % 10)]
  }

  /** `str(n)`: an optional minus sign followed by the decimal digits of |n|. */
  function IntToString(n: int): string {
    if n < 0 then "-" + NatToString(-n) else NatToString(n)
  }

  /** The value of a string of decimal digits, most significant first. */
  function DigitsValue(s: string): int
    decreases |s|
  {
    if s == [] then 0 else DigitsValue(s[..|s| - 1]) * 10 + (s[|s| - 1] as int - '0' as int)
  }

  /** A non-empty run of decimal digits without a leading zero (a lone "0" is allowed). */
  predicate IsDigitRun(d: string) {
    && |d| > 0
    && (forall i :: 0 <= i < |d| ==> IsDigit(d[i]))
    && (d[0] == '0' ==> |d| == 1)
  }

  /** The canonical decimal text of an integer: an optional '-' before a digit run, and no "-0". */
  predicate IsDecimal(s: string) {
    if |s| > 0 && s[0] == '-' then IsDigitRun(s[1..]) && s[1] != '0' else IsDigitRun(s)
  }

  /** Reads back what IntToString printed. */
  function ParseInt(s: string): int {
    if |s| > 0 && s[0] == '-' then -DigitsValue(s[1..]) else DigitsValue(s)
  }

  /** NatToString prints a non-empty run of digits without a leading zero, whose value is n. */
  lemma {:induction false} NatToStringDigits(n: nat)
    ensures var s := NatToString(n);
      && |s| > 0
      && (forall i :: 0 <= i < |s| ==> IsDigit(s[i]))
      && (s[0] == '0' ==> n == 0)
      && DigitsValue(s) == n
    decreases n
  {
    if n >= 10 {
      NatToStringDigits(n / 10);
      var s := NatToString(n);
      assert s[..|s| - 1] == NatToString(n / 10);
    }
  }

  /**
   * `str(n)` is the canonical decimal text of n: a '-' exactly when n is
   * negative, then the digits of |n| without a leading zero; it reads back as
   * n and holds no '$'.
   */
  lemma IntToStringRoundTrip(n: int)
    ensures IsDecimal(IntToString(n))
    ensures IntToString(n)[0] == '-' <==> n < 0
    ensures ParseInt(IntToString(n)) == n
    ensures '$' !in IntToString(n)
  {
    var m: nat := if n < 0 then -n else n;
    var digits := NatToString(m);
    NatToStringDigits(m);
    assert digits[0] == '0' ==> |digits| == 1 by {
      if digits[0] == '0' {
        assert m == 0;
      }
    }
    assert '$' !in digits by {
      forall i | 0 <= i < |digits| ensures digits[i] != '$' {
        assert IsDigit(digits[i]);
      }
    }
    if n < 0 {
      var s := "-" + digits;
      assert s[0] == '-' && s[1..] == digits;
      assert s[1] != '0';
      assert ParseInt(s) == -DigitsValue(digits);
    } else {
      assert digits[0] != '-' by { assert IsDigit(digits[0]); }
    }
  }

  /** A digit run is worth at least 1 unless it is "0". */
  lemma {:induction false} DigitRunPositive(d: string)
    requires IsDigitRun(d) && d[0] != '0'
    ensures DigitsValue(d) >= 1
    decreases |d|
  {
    if |d| > 1 {
      var init := d[..|d| - 1];
      assert init[0] == d[0];
      DigitRunPositive(init);
    }
  }

  /** A digit run is the rendering of its own value. */
  lemma {:induction false} DigitRunRendering(d: string)
    requires IsDigitRun(d)
    ensures DigitsValue(d) >= 0 && d == NatToString(DigitsValue(d))
    decreases |d|
  {
    if |d| == 1 {
      assert DigitsValue(d) == DigitsValue([]) * 10 + (d[0] as int - '0' as int);
    } else {
      var init := d[..|d| - 1];
      var last := d[|d| - 1];
      assert init[0] == d[0];
      DigitRunRendering(init);
      DigitRunPositive(init);
      var v := DigitsValue(d);
      assert v == DigitsValue(init) * 10 + (last as int - '0' as int);
      assert v / 10 == DigitsValue(init) && v % 10 == last as int - '0' as int;
      assert NatToString(v) == NatToString(v / 10) + [DigitChar(v % 10)];
      assert d == init + [last];
    }
  }

  /**
   * The canonical decimal text of a number is unique: any canonical decimal
   * text is the rendering of the value it reads as. With the round trip this
   * makes IntToString a bijection between the integers and their decimal texts.
   */
  lemma DecimalIsRendering(s: string)
    requires IsDecimal(s)
    ensures s == IntToString(ParseInt(s))
  {
    if |s| > 0 && s[0] == '-' {
      var d := s[1..];
      DigitRunRendering(d);
      DigitRunPositive(d);
      assert s == "-" + d;
    } else {
      DigitRunRendering(s);
    }
  }

  // ---------------------------------------------------------------------------
  // `sep.join(parts)`

  function Join(parts: seq<string>, sep: string): string
    decreases |parts|
  {
    if |parts| == 0 then ""
    else if |parts| == 1 then parts[0]
    else parts[0] + sep + Join(parts[1..], sep)
  }

  /** Joining '$'-free parts with a '$'-free separator gives a '$'-free string. */
  lemma {:induction false} JoinDollarFree(parts: seq<string>, sep: string)
    requires '$' !in sep
    requires forall i :: 0 <= i < |parts| ==> '$' !in parts[i]
    ensures '$' !in Join(parts, sep)
    decreases |parts|
  {
    if |parts| > 1 {
      JoinDollarFree(parts[1..], sep);
    }
  }
}
