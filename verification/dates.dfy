/** Calendar dates as the pipeline uses them: the date part of a .NET
    `DateTime` and its `yyyyMMdd` rendering inside an order identity. */
module Dates {
  import opened Wrappers

  /** Year, month and day of a `DateTime`; the time of day is dropped. */
  datatype Ymd = Ymd(year: int, month: int, day: int) {

    /** A date a `DateTime` can hold: years 1..9999, Gregorian months. */
    predicate Valid() {
      && 1 <= year <= 9999
      && 1 <= month <= 12
      && 1 <= day <= DaysInMonth(year, month)
    }
  }

  type Date = d: Ymd | d.Valid() witness Ymd(1, 1, 1)

  predicate IsLeapYear(y: int) {
    y % 4 == 0 && (y % 100 != 0 || y % 400 == 0)
  }

  function DaysInMonth(y: int, m: int): int
    requires 1 <= m <= 12
  {
    if m == 2 then (if IsLeapYear(y) then 29 else 28)
    else if m == 4 || m == 6 || m == 9 || m == 11 then 30
    else 31
  }

  function Pow10(n: nat): nat {
    if n == 0 then 1 else 10 * Pow10(n - 1)
  }

  predicate IsDigit(c: char) {
    '0' <= c <= '9'
  }

  predicate AllDigits(s: string) {
    forall k :: 0 <= k < |s| ==> IsDigit(s[k])
  }

  function DigitChar(n: nat): char
    requires n < 10
  {
    ('0' as int + n) as char
  }

  /** `n` as exactly `width` decimal digits, zero padded on the left
      (the `yyyy`, `MM` and `dd` custom format specifiers). */
  function Digits(n: nat, width: nat): (s: string)
    requires n < Pow10(width)
    ensures |s| == width
    ensures AllDigits(s)
  {
    if width == 0 then [] else Digits(n / 10, width - 1) + [DigitChar(n % 10)]
  }

  /** The number a string of decimal digits denotes. */
  function DigitsValue(s: string): (n: nat)
    requires AllDigits(s)
    ensures n < Pow10(|s|)
  {
    if |s| == 0 then 0
    else DigitsValue(s[..|s| - 1]) * 10 + (s[|s| - 1] as int - '0' as int)
  }

  lemma {:induction false} DigitsValueOfDigits(n: nat, width: nat)
    requires n < Pow10(width)
    ensures DigitsValue(Digits(n, width)) == n
    decreases width
  {
    if width > 0 {
      var s := Digits(n, width);
      assert s[..|s| - 1] == Digits(n / 10, width - 1);
      DigitsValueOfDigits(n / 10, width - 1);
    }
  }

  lemma {:induction false} DigitsOfDigitsValue(s: string)
    requires AllDigits(s)
    ensures Digits(DigitsValue(s), |s|) == s
    decreases |s|
  {
    if |s| > 0 {
      var init := s[..|s| - 1];
      var last := s[|s| - 1] as int - '0' as int;
      var v := DigitsValue(s);
      assert v == DigitsValue(init) * 10 + last;
      assert v / 10 == DigitsValue(init) && v % 10 == last;
      assert DigitChar(last) == s[|s| - 1];
      DigitsOfDigitsValue(init);
      assert s == init + [s[|s| - 1]];
    }
  }

  /** The `yyyyMMdd` rendering of a date. */
  function FormatYmd(d: Date): (s: string)
    ensures |s| == 8 && AllDigits(s)
  {
    Digits(d.year, 4) + Digits(d.month, 2) + Digits(d.day, 2)
  }

  /** Reads a `yyyyMMdd` string back; `None` unless it is eight digits
      naming a valid date. */
  function ParseYmd(s: string): (r: Option<Date>)
    ensures r.Some? ==> |s| == 8 && AllDigits(s)
  {
    if |s| != 8 || !AllDigits(s) then None
    else
      var d := Ymd(DigitsValue(s[..4]), DigitsValue(s[4..6]), DigitsValue(s[6..]));
      if d.Valid() then Some(d) else None
  }

  /** Rendering then reading gives the date back, so the rendering is
      injective: two dates with the same `yyyyMMdd` are equal. */
  lemma ParseFormat(d: Date)
    ensures ParseYmd(FormatYmd(d)) == Some(d)
  {
    var s := FormatYmd(d);
    assert s[..4] == Digits(d.year, 4);
    assert s[4..6] == Digits(d.month, 2);
    assert s[6..] == Digits(d.day, 2);
    DigitsValueOfDigits(d.year, 4);
    DigitsValueOfDigits(d.month, 2);
    DigitsValueOfDigits(d.day, 2);
  }

  /** Reading then rendering gives the string back. */
  lemma FormatParse(s: string)
    requires ParseYmd(s).Some?
    ensures FormatYmd(ParseYmd(s).value) == s
  {
    assert AllDigits(s[..4]) && AllDigits(s[4..6]) && AllDigits(s[6..]);
    DigitsOfDigitsValue(s[..4]);
    DigitsOfDigitsValue(s[4..6]);
    DigitsOfDigitsValue(s[6..]);
    assert s == s[..4] + s[4..6] + s[6..];
  }
}
