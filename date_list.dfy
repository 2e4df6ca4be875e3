/**
 * The date-series functions of visualisation/plot_date_list.py: a frame of daily counts is a
 * sequence of (date, count) entries; `time_filter` selects by inclusive bounds, `fill_out_dates`
 * re-indexes onto the contiguous daily range with zeros, `get_seasonal_bounds` shrinks a range
 * to whole December-November years, and `aggregate_data` sums the counts per time bin and drops
 * the last bin.
 */
module DateList {
  import opened Results
  import opened Calendar

  /** One row of a frame: a date index label and its count column. */
  datatype Entry = Entry(date: Date, count: int)

  predicate AllValid(es: seq<Entry>) {
    forall i :: 0 <= i < |es| ==> Valid(es[i].date)
  }

  /** The sum of the count column. */
  function Total(es: seq<Entry>): int {
    if es == [] then 0 else es[0].count + Total(es[1..])
  }

  lemma {:induction false} TotalAppend(a: seq<Entry>, b: seq<Entry>)
    ensures Total(a + b) == Total(a) + Total(b)
  {
    if a == [] {
      assert a + b == b;
    } else {
      assert (a + b)[1..] == a[1..] + b;
      TotalAppend(a[1..], b);
    }
  }

  predicate InBounds(d: Date, start: Date, end: Date) {
    AtOrBefore(start, d) && AtOrBefore(d, end)
  }

  /** `a` is `b` with some entries removed, the rest kept in order. */
  predicate Subsequence<T(==)>(a: seq<T>, b: seq<T>) {
    if a == [] then true
    else if b == [] then false
    else (a[0] == b[0] && Subsequence(a[1..], b[1..])) || Subsequence(a, b[1..])
  }

  /**
   * `time_filter`: the entries whose date lies within the inclusive bounds, each as often as in
   * the input, in their original order.
   */
  function TimeFilter(es: seq<Entry>, start: Date, end: Date): (r: seq<Entry>)
    ensures Subsequence(r, es)
    ensures forall x :: multiset(r)[x] == if InBounds(x.date, start, end) then multiset(es)[x] else 0
  {
    if es == [] then []
    else
      var rest := TimeFilter(es[1..], start, end);
      assert es == [es[0]] + es[1..];
      if InBounds(es[0].date, start, end) then [es[0]] + rest else rest
  }

  /** No date occurs twice in the frame's index. */
  predicate DistinctDates(es: seq<Entry>) {
    forall i, j :: 0 <= i < j < |es| ==> es[i].date != es[j].date
  }

  /** The count recorded for `d`, or 0 when `d` is not in the index. */
  function Lookup(es: seq<Entry>, d: Date): int {
    if es == [] then 0 else if es[0].date == d then es[0].count else Lookup(es[1..], d)
  }

  lemma {:induction false} LookupFinds(es: seq<Entry>, i: nat)
    requires DistinctDates(es) && i < |es|
    ensures Lookup(es, es[i].date) == es[i].count
  {
    if i > 0 {
      LookupFinds(es[1..], i - 1);
    }
  }

  lemma {:induction false} LookupMissing(es: seq<Entry>, d: Date)
    requires forall i :: 0 <= i < |es| ==> es[i].date != d
    ensures Lookup(es, d) == 0
  {
    if es != [] {
      LookupMissing(es[1..], d);
    }
  }

  /** One entry per day of `days`, carrying the count of that day in `es`. */
  function FillDays(days: seq<Date>, es: seq<Entry>): (r: seq<Entry>)
    ensures |r| == |days|
    ensures forall i :: 0 <= i < |r| ==> r[i] == Entry(days[i], Lookup(es, days[i]))
  {
    if days == [] then [] else [Entry(days[0], Lookup(es, days[0]))] + FillDays(days[1..], es)
  }

  /**
   * `fill_out_dates`: re-index onto every day from `start` to `end`, 0 where the date is absent.
   * pandas refuses to re-index a frame whose index holds a date twice (ValueError), except onto
   * an empty range, which it re-indexes without looking at the duplicates.
   */
  function FillOutDates(es: seq<Entry>, start: Date, end: Date): (r: Result<seq<Entry>>)
    requires Valid(start) && Valid(end)
    ensures r.Success? <==> DistinctDates(es) || Before(end, start)
    ensures r.Failure? ==> r.error == ValueError
    ensures r.Success? ==> r.value == FillDays(DateRange(start, end), es)
  {
    var days := DateRange(start, end);
    if days == [] || DistinctDates(es) then Success(FillDays(days, es)) else Failure(ValueError)
  }

  /** The zero-filled frame has one row per day of the range, each a real calendar date. */
  lemma FillOutDatesValid(es: seq<Entry>, start: Date, end: Date)
    requires Valid(start) && Valid(end) && FillOutDates(es, start, end).Success?
    ensures AllValid(FillOutDates(es, start, end).value)
    ensures |FillOutDates(es, start, end).value| == |DateRange(start, end)|
  {
  }

  /** Every day of the range appears in the zero-filled frame. */
  lemma FillOutDatesCoversRange(es: seq<Entry>, start: Date, end: Date, d: Date)
    requires Valid(start) && Valid(end) && Valid(d) && DistinctDates(es)
    requires InBounds(d, start, end)
    ensures exists i :: 0 <= i < |FillOutDates(es, start, end).value| && FillOutDates(es, start, end).value[i].date == d
  {
    DateRangeMembers(start, end, d);
    var days := DateRange(start, end);
    var i :| 0 <= i < |days| && days[i] == d;
    assert FillOutDates(es, start, end).value[i].date == d;
  }

  /** An input entry inside the range keeps its count in the zero-filled frame. */
  lemma FillOutDatesKeepsCount(es: seq<Entry>, start: Date, end: Date, k: nat)
    requires Valid(start) && Valid(end) && AllValid(es) && DistinctDates(es)
    requires k < |es| && InBounds(es[k].date, start, end)
    ensures es[k] in FillOutDates(es, start, end).value
  {
    FillOutDatesCoversRange(es, start, end, es[k].date);
    LookupFinds(es, k);
  }

  /** A day of the range that the input does not mention is filled with 0. */
  lemma FillOutDatesZeroes(es: seq<Entry>, start: Date, end: Date, i: nat)
    requires Valid(start) && Valid(end) && DistinctDates(es)
    requires i < |FillOutDates(es, start, end).value|
    requires forall k :: 0 <= k < |es| ==> es[k].date != FillOutDates(es, start, end).value[i].date
    ensures FillOutDates(es, start, end).value[i].count == 0
  {
    LookupMissing(es, FillOutDates(es, start, end).value[i].date);
  }

  lemma {:induction false} FillDaysCons(days: seq<Date>, x: Entry, rest: seq<Entry>)
    requires forall i, j :: 0 <= i < j < |days| ==> days[i] != days[j]
    requires Lookup(rest, x.date) == 0
    ensures Total(FillDays(days, [x] + rest)) ==
            Total(FillDays(days, rest)) + (if x.date in days then x.count else 0)
  {
    if days != [] {
      assert ([x] + rest)[1..] == rest;
      FillDaysCons(days[1..], x, rest);
      assert x.date in days <==> x.date == days[0] || x.date in days[1..];
    }
  }

  /**
   * Zero-filling keeps the total of the counts inside the range: the filled frame sums to what
   * `time_filter` keeps of the input.
   */
  lemma {:induction false} FillOutDatesTotal(es: seq<Entry>, start: Date, end: Date)
    requires Valid(start) && Valid(end) && AllValid(es) && DistinctDates(es)
    ensures Total(FillOutDates(es, start, end).value) == Total(TimeFilter(es, start, end))
  {
    var days := DateRange(start, end);
    if es == [] {
      FillDaysZero(days);
    } else {
      var x, rest := es[0], es[1..];
      assert es == [x] + rest;
      FillOutDatesTotal(rest, start, end);
      LookupMissing(rest, x.date);
      FillDaysCons(days, x, rest);
      DateRangeMembers(start, end, x.date);
    }
  }

  lemma {:induction false} FillDaysZero(days: seq<Date>)
    ensures Total(FillDays(days, [])) == 0
  {
    if days != [] {
      FillDaysZero(days[1..]);
    }
  }

  /**
   * The round trip of the plot script: filtering a series to the range, then zero-filling it
   * over the same range, keeps its total.
   */
  lemma FilterThenFillTotal(es: seq<Entry>, start: Date, end: Date)
    requires Valid(start) && Valid(end) && AllValid(es) && DistinctDates(es)
    ensures FillOutDates(TimeFilter(es, start, end), start, end).Success?
    ensures Total(FillOutDates(TimeFilter(es, start, end), start, end).value)
            == Total(TimeFilter(es, start, end))
  {
    var f := TimeFilter(es, start, end);
    SubsequenceKeeps(f, es);
    FillOutDatesTotal(f, start, end);
    TimeFilterIdempotent(es, start, end);
  }

  /** Entries of a subsequence come from the sequence, in order, so they stay distinct and valid. */
  lemma {:induction false} SubsequenceKeeps(a: seq<Entry>, b: seq<Entry>)
    requires Subsequence(a, b) && AllValid(b) && DistinctDates(b)
    ensures AllValid(a) && DistinctDates(a)
    ensures forall i :: 0 <= i < |a| ==> a[i] in b
  {
    if a != [] && b != [] {
      if a[0] == b[0] && Subsequence(a[1..], b[1..]) {
        SubsequenceKeeps(a[1..], b[1..]);
        forall i, j | 0 <= i < j < |a| ensures a[i].date != a[j].date {
          if i == 0 {
            assert a[j] in b[1..];
            var k :| 0 <= k < |b[1..]| && b[1..][k] == a[j];
            assert b[k + 1] == a[j];
          } else {
            assert a[1..][i - 1] == a[i] && a[1..][j - 1] == a[j];
          }
        }
        forall i | 0 <= i < |a| ensures a[i] in b {
          if i > 0 { assert a[1..][i - 1] == a[i]; }
        }
      } else {
        SubsequenceKeeps(a, b[1..]);
      }
    }
  }

  lemma {:induction false} TimeFilterIdempotent(es: seq<Entry>, start: Date, end: Date)
    ensures TimeFilter(TimeFilter(es, start, end), start, end) == TimeFilter(es, start, end)
  {
    if es != [] {
      TimeFilterIdempotent(es[1..], start, end);
    }
  }

  // ----- Whole December-November years -----

  /** Python 2's `strftime` raises ValueError for any year before 1900. */
  const StrftimeMinYear := 1900

  /** The year `get_seasonal_bounds` gives its new start (1 December of that year). */
  function SeasonStartYear(start: Date): int {
    if start.month == 12 then start.year + 1 else start.year
  }

  /** The year `get_seasonal_bounds` gives its new end (30 November of that year). */
  function SeasonEndYear(end: Date): int {
    if end.month < 12 then end.year - 1 else end.year
  }

  /**
   * `get_seasonal_bounds`: 1 December of the start's year (of the following year when the start
   * falls in December) and 30 November of the year before the end's (of the end's own year when
   * the end falls in December). `datetime` raises ValueError when a computed year leaves 1..9999,
   * and `strftime` raises ValueError when it lies before 1900.
   */
  function SeasonalBounds(start: Date, end: Date): (r: Result<(Date, Date)>)
    requires Valid(start) && Valid(end)
    ensures r.Failure? <==>
      || (start.year == MaxYear && start.month == 12)
      || (if start.month == 12 then start.year + 1 else start.year) < StrftimeMinYear
      || (if end.month == 12 then end.year else end.year - 1) < StrftimeMinYear
    ensures r.Failure? ==> r.error == ValueError
    ensures r.Success? ==>
      var (s, e) := r.value;
      && Valid(s) && Valid(e)
      && StrftimeMinYear <= s.year && StrftimeMinYear <= e.year
      && s.month == 12 && s.day == 1
      && s.year == (if start.month == 12 then start.year + 1 else start.year)
      && e.month == 11 && e.day == 30
      && e.year == (if end.month == 12 then end.year else end.year - 1)
  {
    var sy := SeasonStartYear(start);
    var ey := SeasonEndYear(end);
    if sy > MaxYear || ey < MinYear then Failure(ValueError)
    else if sy < StrftimeMinYear || ey < StrftimeMinYear then Failure(ValueError)
    else Success((Date(sy, 12, 1), Date(ey, 11, 30)))
  }

  /**
   * The adjusted range never leaves the input range. The bounds are not checked against each
   * other: a range holding no whole season year comes back with its start after its end.
   */
  lemma SeasonalBoundsInside(start: Date, end: Date)
    requires Valid(start) && Valid(end)
    requires SeasonalBounds(start, end).Success?
    ensures AtOrBefore(start, SeasonalBounds(start, end).value.0)
    ensures AtOrBefore(SeasonalBounds(start, end).value.1, end)
  {
  }

  /** The December-November season year holding `d`, named by the year of its December. */
  function SeasonYear(d: Date): int {
    if d.month == 12 then d.year else d.year - 1
  }

  /**
   * Only whole season years survive: every day between the adjusted bounds belongs to a
   * December-November year that lies entirely between the adjusted bounds, and so entirely
   * inside the original range.
   */
  lemma SeasonalBoundsWholeYears(start: Date, end: Date, d: Date)
    requires Valid(start) && Valid(end) && Valid(d)
    requires SeasonalBounds(start, end).Success?
    requires InBounds(d, SeasonalBounds(start, end).value.0, SeasonalBounds(start, end).value.1)
    ensures var (s, e) := SeasonalBounds(start, end).value;
            var y := SeasonYear(d);
            && InBounds(Date(y, 12, 1), s, e) && InBounds(Date(y + 1, 11, 30), s, e)
            && InBounds(Date(y, 12, 1), start, end) && InBounds(Date(y + 1, 11, 30), start, end)
  {
    SeasonalBoundsInside(start, end);
  }

  /**
   * A range already aligned on season years still loses one at each end: a start on 1 December
   * moves a year forward and an end on 30 November a year back.
   */
  lemma SeasonalBoundsAlignedRange()
    ensures SeasonalBounds(Date(1979, 12, 1), Date(2012, 11, 30))
            == Success((Date(1980, 12, 1), Date(2011, 11, 30)))
  {
  }

  /** 1980-01-01 to 1980-12-31 holds no whole December-November year. */
  lemma SeasonalBoundsExample()
    ensures SeasonalBounds(Date(1980, 1, 1), Date(1980, 12, 31))
            == Success((Date(1980, 12, 1), Date(1980, 11, 30)))
    ensures DateRange(Date(1980, 12, 1), Date(1980, 11, 30)) == []
  {
  }

  /** `get_seasonal_bounds` on its text arguments and result. */
  function SeasonalBoundsText(start: string, end: string): (r: Result<(string, string)>)
    ensures r.Success? <==>
      ParseIso(start).Some? && ParseIso(end).Some?
      && SeasonalBounds(ParseIso(start).value, ParseIso(end).value).Success?
    ensures r.Failure? ==> r.error == ValueError
    ensures r.Success? ==>
      var (s, e) := SeasonalBounds(ParseIso(start).value, ParseIso(end).value).value;
      ParseIso(r.value.0) == Some(s) && ParseIso(r.value.1) == Some(e)
  {
    match (ParseIso(start), ParseIso(end))
    case (Some(s), Some(e)) =>
      (match SeasonalBounds(s, e)
       case Success((ns, ne)) =>
         FormatThenParse(ns);
         FormatThenParse(ne);
         Success((FormatIso(ns), FormatIso(ne)))
       case Failure(err) => Failure(err))
    case _ => Failure(ValueError)
  }

  /** The same on text: a start in January moves forward to 1 December of its own year. */
  lemma SeasonalBoundsTextExample()
    ensures SeasonalBoundsText("1980-01-01", "1980-12-31") == Success(("1980-12-01", "1980-11-30"))
  {
    ExampleInputs();
    ExampleOutputs();
    SeasonalBoundsExample();
  }

  /** A range in the 19th century is refused: `strftime` cannot write a year before 1900. */
  lemma SeasonalBoundsTextBefore1900()
    ensures SeasonalBoundsText("1850-01-01", "1890-12-31") == Failure(ValueError)
  {
    IsoDate("1850-01-01", Date(1850, 1, 1));
    IsoDate("1890-12-31", Date(1890, 12, 31));
  }

  lemma ExampleInputs()
    ensures ParseIso("1980-01-01") == Some(Date(1980, 1, 1)) && ParseIso("1980-12-31") == Some(Date(1980, 12, 31))
  {
    IsoDate("1980-01-01", Date(1980, 1, 1));
    IsoDate("1980-12-31", Date(1980, 12, 31));
  }

  lemma ExampleOutputs()
    ensures FormatIso(Date(1980, 12, 1)) == "1980-12-01" && FormatIso(Date(1980, 11, 30)) == "1980-11-30"
  {
    IsoDate("1980-12-01", Date(1980, 12, 1));
    IsoDate("1980-11-30", Date(1980, 11, 30));
  }

  lemma IsoDate(s: string, d: Date)
    requires |s| == 10 && s[4] == '-' && s[7] == '-'
    requires forall i :: 0 <= i < 10 && i != 4 && i != 7 ==> IsDigit(s[i])
    requires Valid(d)
    requires d.year == 1000 * (s[0] as int - 48) + 100 * (s[1] as int - 48) + 10 * (s[2] as int - 48) + (s[3] as int - 48)
    requires d.month == 10 * (s[5] as int - 48) + (s[6] as int - 48)
    requires d.day == 10 * (s[8] as int - 48) + (s[9] as int - 48)
    ensures ParseIso(s) == Some(d) && FormatIso(d) == s
  {
    ParseIsoFields(s);
    assert ParseIso(s) == Some(d);
    ParseThenFormat(s);
  }

  /** A start date that does not exist is refused, as `strptime` refuses it. */
  lemma SeasonalBoundsTextInvalid()
    ensures SeasonalBoundsText("1979-02-31", "1980-12-31") == Failure(ValueError)
  {
    ParseIsoFields("1979-02-31");
  }

  // ----- Aggregation into time bins -----

  /**
   * How `aggregate_data` assigns a day to a time bin, for each timescale: the label of the bin
   * holding the day. The pandas `TimeGrouper` bin edges are not modelled; any labelling works.
   */
  datatype BinRules = BinRules(monthly: Date -> Date, seasonal: Date -> Date)

  /** A row of the aggregated frame: a bin label and the sum of the counts in the bin. */
  datatype Bucket = Bucket(period: Date, total: int)

  function Flatten(runs: seq<seq<Entry>>): seq<Entry> {
    if runs == [] then [] else runs[0] + Flatten(runs[1..])
  }

  /** Maximal runs of consecutive entries that share a bin: the groups of a time grouper. */
  function Runs(es: seq<Entry>, bin: Date -> Date): (r: seq<seq<Entry>>)
    ensures Flatten(r) == es
    ensures forall k :: 0 <= k < |r| ==> r[k] != []
    ensures forall k, i :: 0 <= k < |r| && 0 <= i < |r[k]| ==> bin(r[k][i].date) == bin(r[k][0].date)
    ensures forall k :: 0 <= k < |r| - 1 ==> bin(r[k][0].date) != bin(r[k + 1][0].date)
  {
    if es == [] then []
    else
      var rest := Runs(es[1..], bin);
      if rest != [] && bin(rest[0][0].date) == bin(es[0].date) then
        var r := [[es[0]] + rest[0]] + rest[1..];
        assert Flatten(r) == [es[0]] + rest[0] + Flatten(rest[1..]);
        r
      else
        var r := [[es[0]]] + rest;
        assert Flatten(r) == [es[0]] + Flatten(rest);
        r
  }

  function BucketTotals(bs: seq<Bucket>): int {
    if bs == [] then 0 else bs[0].total + BucketTotals(bs[1..])
  }

  lemma {:induction false} BucketTotalsAppend(a: seq<Bucket>, b: seq<Bucket>)
    ensures BucketTotals(a + b) == BucketTotals(a) + BucketTotals(b)
  {
    if a == [] {
      assert a + b == b;
    } else {
      assert (a + b)[1..] == a[1..] + b;
      BucketTotalsAppend(a[1..], b);
    }
  }

  /** One bucket per run, labelled by the run's bin, holding the run's total. */
  function RunBuckets(runs: seq<seq<Entry>>, bin: Date -> Date): (r: seq<Bucket>)
    requires forall k :: 0 <= k < |runs| ==> runs[k] != []
    ensures |r| == |runs|
    ensures forall k :: 0 <= k < |r| ==> r[k] == Bucket(bin(runs[k][0].date), Total(runs[k]))
    ensures BucketTotals(r) == Total(Flatten(runs))
  {
    if runs == [] then []
    else
      TotalAppend(runs[0], Flatten(runs[1..]));
      [Bucket(bin(runs[0][0].date), Total(runs[0]))] + RunBuckets(runs[1..], bin)
  }

  /** `df.groupby(TimeGrouper(...)).sum()` on a contiguous series: one bucket per run. */
  function Buckets(es: seq<Entry>, bin: Date -> Date): (r: seq<Bucket>)
    ensures |r| == |Runs(es, bin)|
    ensures |r| == 0 <==> es == []
    ensures forall k :: 0 <= k < |r| - 1 ==> r[k].period != r[k + 1].period
    ensures forall k :: 0 <= k < |r| ==> r[k].period == bin(Runs(es, bin)[k][0].date)
    ensures forall k :: 0 <= k < |r| ==> r[k].total == Total(Runs(es, bin)[k])
    ensures BucketTotals(r) == Total(es)
  {
    RunBuckets(Runs(es, bin), bin)
  }

  function TimescaleBin(timescale: string, rules: BinRules): Date -> Date
    requires timescale in {"monthly", "seasonal"}
  {
    if timescale == "monthly" then rules.monthly else rules.seasonal
  }

  /**
   * `aggregate_data`: the bucket sums of the timescale's bins, with the last bucket dropped.
   * An unknown timescale fails the assertion; an empty frame has no last bucket to drop.
   */
  function AggregateData(es: seq<Entry>, timescale: string, rules: BinRules): (r: Result<seq<Bucket>>)
    ensures timescale !in {"monthly", "seasonal"} ==> r == Failure(AssertionError)
    ensures timescale in {"monthly", "seasonal"} && es == [] ==> r == Failure(IndexError)
    ensures r.Success? <==> timescale in {"monthly", "seasonal"} && es != []
    ensures r.Success? ==>
      var all := Buckets(es, TimescaleBin(timescale, rules));
      |all| >= 1 && r.value == all[..|all| - 1]
  {
    if timescale !in {"monthly", "seasonal"} then Failure(AssertionError)
    else
      var bs := Buckets(es, TimescaleBin(timescale, rules));
      if bs == [] then Failure(IndexError)
      else Success(bs[..|bs| - 1])
  }

  /** What the aggregate keeps plus the dropped last bucket is the total of the input. */
  lemma AggregateDataTotal(es: seq<Entry>, timescale: string, rules: BinRules)
    requires AggregateData(es, timescale, rules).Success?
    ensures var all := Buckets(es, TimescaleBin(timescale, rules));
            BucketTotals(AggregateData(es, timescale, rules).value) + all[|all| - 1].total == Total(es)
  {
    BucketTotalsDropLast(Buckets(es, TimescaleBin(timescale, rules)));
  }

  lemma BucketTotalsDropLast(bs: seq<Bucket>)
    requires |bs| >= 1
    ensures BucketTotals(bs[..|bs| - 1]) + bs[|bs| - 1].total == BucketTotals(bs)
  {
    BucketTotalsAppend(bs[..|bs| - 1], [bs[|bs| - 1]]);
    assert bs == bs[..|bs| - 1] + [bs[|bs| - 1]];
  }

}
