/**
 * Proleptic Gregorian calendar dates as Python's `datetime` holds them (years 1 to 9999),
 * their total order, the day successor, the contiguous daily range that
 * `pandas.date_range(start, end)` produces, and the `YYYY-MM-DD` text form
 * (the ISO 8601 extended calendar date, ISO 8601:2004 section 4.1.2.2).
 */
module Calendar {
  import opened Results

  datatype Date = Date(year: int, month: int, day: int)

  const MinYear := 1
  const MaxYear := 9999

  predicate IsLeapYear(y: int) {
    y % 4 == 0 && (y % 100 != 0 || y % 400 == 0)
  }

  function DaysInMonth(y: int, m: int): (n: int)
    requires 1 <= m <= 12
    ensures 28 <= n <= 31
    ensures n == 31 <==> m in {1, 3, 5, 7, 8, 10, 12}
    ensures n == 30 <==> m in {4, 6, 9, 11}
    ensures m == 2 ==> (n == 29 <==> IsLeapYear(y))
  {
    if m == 2 then (if IsLeapYear(y) then 29 else 28)
    else if m in {4, 6, 9, 11} then 30
    else 31
  }

  /** A date `datetime` accepts. */
  predicate Valid(d: Date) {
    MinYear <= d.year <= MaxYear && 1 <= d.month <= 12 && 1 <= d.day <= DaysInMonth(d.year, d.month)
  }

  /** Strict chronological order. */
  predicate Before(a: Date, b: Date) {
    a.year < b.year || (a.year == b.year && (a.month < b.month || (a.month == b.month && a.day < b.day)))
  }

  predicate AtOrBefore(a: Date, b: Date) {
    Before(a, b) || a == b
  }

  lemma OrderIsTotal(a: Date, b: Date)
    ensures Before(a, b) || a == b || Before(b, a)
    ensures !(Before(a, b) && Before(b, a))
    ensures !Before(a, a)
  {
  }

  /** The calendar day after `d`; the year may pass 9999 only after 9999-12-31. */
  function NextDay(d: Date): (r: Date)
    requires Valid(d)
    ensures Before(d, r)
    ensures r.year <= MaxYear ==> Valid(r)
  {
    if d.day < DaysInMonth(d.year, d.month) then Date(d.year, d.month, d.day + 1)
    else if d.month < 12 then Date(d.year, d.month + 1, 1)
    else Date(d.year + 1, 1, 1)
  }

  /** No valid date lies strictly between a date and its successor. */
  lemma NextDayIsSuccessor(d: Date, x: Date)
    requires Valid(d) && Valid(x)
    ensures Before(d, x) <==> AtOrBefore(NextDay(d), x)
  {
  }

  lemma NextDayValid(d: Date, e: Date)
    requires Valid(d) && Valid(e) && Before(d, e)
    ensures Valid(NextDay(d))
  {
    NextDayIsSuccessor(d, e);
  }

  /**
   * The days from `s` to `e` inclusive, ascending: `pandas.date_range(s, e)`.
   * Empty when `e` is before `s`.
   */
  function DateRange(s: Date, e: Date): (r: seq<Date>)
    requires Valid(s) && Valid(e)
    ensures |r| > 0 <==> AtOrBefore(s, e)
    ensures |r| > 0 ==> r[0] == s && r[|r| - 1] == e
    ensures forall i :: 0 <= i < |r| ==> Valid(r[i]) && AtOrBefore(s, r[i]) && AtOrBefore(r[i], e)
    ensures forall i :: 0 <= i < |r| - 1 ==> r[i + 1] == NextDay(r[i])
    ensures forall i, j :: 0 <= i < j < |r| ==> Before(r[i], r[j])
    decreases e.year - s.year, 12 - s.month, 31 - s.day
  {
    if Before(e, s) then []
    else if s == e then [s]
    else
      NextDayValid(s, e);
      [s] + DateRange(NextDay(s), e)
  }

  /** Every valid day between the bounds is in the range, and nothing else is. */
  lemma {:induction false} DateRangeMembers(s: Date, e: Date, x: Date)
    requires Valid(s) && Valid(e) && Valid(x)
    ensures x in DateRange(s, e) <==> AtOrBefore(s, x) && AtOrBefore(x, e)
    decreases e.year - s.year, 12 - s.month, 31 - s.day
  {
    if Before(e, s) || s == e {
    } else {
      NextDayValid(s, e);
      NextDayIsSuccessor(s, x);
      DateRangeMembers(NextDay(s), e, x);
      assert DateRange(s, e) == [s] + DateRange(NextDay(s), e);
    }
  }

  // ----- The YYYY-MM-DD text form -----

  predicate IsDigit(c: char) {
    '0' <= c <= '9'
  }

  function Pow10(n: nat): (p: nat)
    ensures p >= 1
  {
    if n == 0 then 1 else 10 * Pow10(n - 1)
  }

  /** `n` written with exactly `width` decimal digits, zero-padded on the left. */
  function Digits(n: nat, width: nat): (s: string)
    ensures |s| == width
    ensures forall i :: 0 <= i < |s| ==> IsDigit(s[i])
  {
    if width == 0 then [] else Digits(n / 10, width - 1) + [(48 + n % 10) as char]
  }

  /** The number a string of decimal digits denotes. */
  function DigitsValue(s: string): (n: nat)
    requires forall i :: 0 <= i < |s| ==> IsDigit(s[i])
    ensures n < Pow10(|s|)
  {
    if s == [] then 0
    else
      var last := s[|s| - 1];
      assert IsDigit(last);
      10 * DigitsValue(s[..|s| - 1]) + (last as int - 48)
  }

  lemma {:induction false} DigitsRoundTrip(n: nat, width: nat)
    requires n < Pow10(width)
    ensures DigitsValue(Digits(n, width)) == n
  {
    if width > 0 {
      DigitsRoundTrip(n / 10, width - 1);
      var s := Digits(n, width);
      assert s[..|s| - 1] == Digits(n / 10, width - 1);
    }
  }

  lemma {:induction false} DigitsValueRoundTrip(s: string)
    requires forall i :: 0 <= i < |s| ==> IsDigit(s[i])
    ensures Digits(DigitsValue(s), |s|) == s
  {
    if s != [] {
      var p := s[..|s| - 1];
      DigitsValueRoundTrip(p);
      var n := DigitsValue(s);
      assert n / 10 == DigitsValue(p);
      assert s == p + [s[|s| - 1]];
    }
  }

  /** `strftime('%Y-%m-%d')` of a valid date. */
  function FormatIso(d: Date): (s: string)
    requires Valid(d)
    ensures |s| == 10 && s[4] == '-' && s[7] == '-'
  {
    Digits(d.year, 4) + "-" + Digits(d.month, 2) + "-" + Digits(d.day, 2)
  }

  /** `strptime(s, '%Y-%m-%d')` on the zero-padded form: `None` where Python raises ValueError. */
  function ParseIso(s: string): (r: Option<Date>)
    ensures r.Some? ==> Valid(r.value)
  {
    if |s| == 10 && s[4] == '-' && s[7] == '-'
       && (forall i :: 0 <= i < 10 && i != 4 && i != 7 ==> IsDigit(s[i]))
    then
      var d := Date(DigitsValue(s[..4]), DigitsValue(s[5..7]), DigitsValue(s[8..]));
      if Valid(d) then Some(d) else None
    else None
  }

  lemma FormatThenParse(d: Date)
    requires Valid(d)
    ensures ParseIso(FormatIso(d)) == Some(d)
  {
    var s := FormatIso(d);
    assert s[..4] == Digits(d.year, 4);
    assert s[5..7] == Digits(d.month, 2);
    assert s[8..] == Digits(d.day, 2);
    DigitsRoundTrip(d.year, 4);
    DigitsRoundTrip(d.month, 2);
    DigitsRoundTrip(d.day, 2);
  }

  lemma ParseThenFormat(s: string)
    requires ParseIso(s).Some?
    ensures FormatIso(ParseIso(s).value) == s
  {
    DigitsValueRoundTrip(s[..4]);
    DigitsValueRoundTrip(s[5..7]);
    DigitsValueRoundTrip(s[8..]);
    assert s == s[..4] + "-" + s[5..7] + "-" + s[8..];
  }

  /** `ParseIso` reads the year, month and day fields digit by digit. */
  lemma ParseIsoFields(s: string)
    requires |s| == 10 && s[4] == '-' && s[7] == '-'
    requires forall i :: 0 <= i < 10 && i != 4 && i != 7 ==> IsDigit(s[i])
    ensures var d := Date(1000 * (s[0] as int - 48) + 100 * (s[1] as int - 48) + 10 * (s[2] as int - 48) + (s[3] as int - 48),
                          10 * (s[5] as int - 48) + (s[6] as int - 48),
                          10 * (s[8] as int - 48) + (s[9] as int - 48));
            ParseIso(s) == if Valid(d) then Some(d) else None
  {
    DigitsValueTwo(s[5..7]);
    DigitsValueTwo(s[8..]);
    var y := s[..4];
    assert y[..3][..2] == y[..2];
    DigitsValueTwo(y[..2]);
    assert DigitsValue(y[..3]) == 10 * DigitsValue(y[..2]) + (y[2] as int - 48);
    assert DigitsValue(y) == 10 * DigitsValue(y[..3]) + (y[3] as int - 48);
  }

  lemma DigitsValueTwo(s: string)
    requires |s| == 2 && IsDigit(s[0]) && IsDigit(s[1])
    ensures DigitsValue(s) == 10 * (s[0] as int - 48) + (s[1] as int - 48)
  {
    assert s[..1][..0] == [];
  }
}
