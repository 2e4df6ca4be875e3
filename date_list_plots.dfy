/**
 * The counting done by the plots of visualisation/plot_date_list.py: the split of seasonal
 * buckets into DJF/MAM/JJA/SON series and their stacking (`plot_seasonal_stackplot`), the
 * month-of-year grouping (`plot_monthly_totals` and `month_days` in `main`), and `main`'s loop
 * over the requested plot types. Drawing is not modelled.
 */
module DateListPlots {
  import opened Results
  import opened Calendar
  import opened DateList

  datatype Season = DJF | MAM | JJA | SON

  /** `season_keys`: a seasonal bin is labelled by its last month, which names its season. */
  function SeasonKey(month: int): Option<Season> {
    match month
    case 2 => Some(DJF)
    case 5 => Some(MAM)
    case 8 => Some(JJA)
    case 11 => Some(SON)
    case _ => None
  }

  /** `seasonal_data['count']`. */
  function Counts(bs: seq<Bucket>): (c: seq<int>)
    ensures |c| == |bs|
    ensures forall i :: 0 <= i < |c| ==> c[i] == bs[i].total
  {
    seq(|bs|, i requires 0 <= i < |bs| => bs[i].total)
  }

  /** `s[start::4]`. */
  function EveryFourth(s: seq<int>, start: nat): (r: seq<int>)
    ensures |r| == if start < |s| then (|s| - start + 3) / 4 else 0
    ensures forall k :: 0 <= k < |r| ==> r[k] == s[start + 4 * k]
    decreases |s| - start
  {
    if start >= |s| then [] else [s[start]] + EveryFourth(s, start + 4)
  }

  predicate HasSeasonKeys(bs: seq<Bucket>, n: nat) {
    n <= |bs| && forall j :: 0 <= j < n ==> SeasonKey(bs[j].period.month).Some?
  }

  function SeasonOf(bs: seq<Bucket>, j: nat): Season
    requires HasSeasonKeys(bs, j + 1)
  {
    SeasonKey(bs[j].period.month).value
  }

  /**
   * `season_counts` after the first `n` turns of the loop: each turn stores the stride starting
   * at its bucket under that bucket's season, a later turn overwriting an earlier one.
   */
  function AssignSeasons(bs: seq<Bucket>, n: nat): map<Season, seq<int>>
    requires HasSeasonKeys(bs, n)
  {
    if n == 0 then map[]
    else AssignSeasons(bs, n - 1)[SeasonOf(bs, n - 1) := EveryFourth(Counts(bs), n - 1)]
  }

  /**
   * The counting part of `plot_seasonal_stackplot`: the assertion that the bucket count is a
   * multiple of 4, the loop over the first four buckets, and the lookups of the four seasons
   * that the drawing then makes.
   */
  function SeasonSplit(bs: seq<Bucket>): Result<map<Season, seq<int>>> {
    if |bs| % 4 != 0 then Failure(AssertionError)
    else if |bs| == 0 then Failure(IndexError)
    else if !HasSeasonKeys(bs, 4) then Failure(KeyError)
    else
      var m := AssignSeasons(bs, 4);
      if DJF in m && MAM in m && JJA in m && SON in m then Success(m) else Failure(KeyError)
  }

  predicate DistinctSeasons(bs: seq<Bucket>)
    requires HasSeasonKeys(bs, 4)
  {
    forall j, k :: 0 <= j < k < 4 ==> SeasonOf(bs, j) != SeasonOf(bs, k)
  }

  lemma QuarterLength(n: nat, j: nat)
    requires n % 4 == 0 && j < 4 && j < n
    ensures (n - j + 3) / 4 == n / 4
  {
    var q := n / 4;
    assert n == 4 * q;
    assert n - j + 3 == 4 * q + (3 - j);
  }

  /**
   * The split succeeds exactly when the bucket count is a positive multiple of 4 and the first
   * four buckets are labelled with the four different season months.
   */
  lemma SeasonSplitMeaning(bs: seq<Bucket>)
    ensures SeasonSplit(bs).Success? <==>
      |bs| % 4 == 0 && |bs| > 0 && HasSeasonKeys(bs, 4) && DistinctSeasons(bs)
  {
    if |bs| % 4 == 0 && |bs| > 0 && HasSeasonKeys(bs, 4) {
      if DistinctSeasons(bs) {
        DistinctSeasonsSplit(bs);
      } else if SeasonSplit(bs).Success? {
        SplitSeasonsDistinct(bs);
      }
    }
  }

  lemma DistinctSeasonsSplit(bs: seq<Bucket>)
    requires |bs| % 4 == 0 && |bs| > 0 && HasSeasonKeys(bs, 4) && DistinctSeasons(bs)
    ensures SeasonSplit(bs).Success?
  {
    var s0, s1, s2, s3 := SeasonOf(bs, 0), SeasonOf(bs, 1), SeasonOf(bs, 2), SeasonOf(bs, 3);
    AssignFour(bs);
    var m := AssignSeasons(bs, 4);
    assert s0 != s1 && s0 != s2 && s0 != s3 && s1 != s2 && s1 != s3 && s2 != s3;
    forall s ensures s in m {
      FourSeasonsCoverAll(s0, s1, s2, s3, s);
    }
  }

  lemma SplitSeasonsDistinct(bs: seq<Bucket>)
    requires |bs| % 4 == 0 && |bs| > 0 && HasSeasonKeys(bs, 4) && SeasonSplit(bs).Success?
    ensures DistinctSeasons(bs)
  {
    var s0, s1, s2, s3 := SeasonOf(bs, 0), SeasonOf(bs, 1), SeasonOf(bs, 2), SeasonOf(bs, 3);
    AssignFour(bs);
    assert {DJF, MAM, JJA, SON} <= {s0, s1, s2, s3};
    CoveringSeasonsAreDistinct(s0, s1, s2, s3);
  }

  /**
   * After a successful split, bucket `j` (j < 4) names the series `counts[j::4]`, so bucket
   * `j + 4k` is value `k` of its season's series; every season has a series and each holds
   * one value per year.
   */
  lemma SeasonSplitSeries(bs: seq<Bucket>)
    requires SeasonSplit(bs).Success?
    ensures HasSeasonKeys(bs, 4)
    ensures var m := SeasonSplit(bs).value;
      && (forall s :: s in m)
      && (forall j :: 0 <= j < 4 ==>
            (m[SeasonOf(bs, j)] == EveryFourth(Counts(bs), j) && |m[SeasonOf(bs, j)]| == |bs| / 4))
  {
    SeasonSplitMeaning(bs);
    var c := Counts(bs);
    var s0, s1, s2, s3 := SeasonOf(bs, 0), SeasonOf(bs, 1), SeasonOf(bs, 2), SeasonOf(bs, 3);
    AssignFour(bs);
    assert s0 != s1 && s0 != s2 && s0 != s3 && s1 != s2 && s1 != s3 && s2 != s3;
    FourUpdates(s0, s1, s2, s3, EveryFourth(c, 0), EveryFourth(c, 1), EveryFourth(c, 2), EveryFourth(c, 3));
    var m := SeasonSplit(bs).value;
    forall s ensures s in m {
      FourSeasonsCoverAll(s0, s1, s2, s3, s);
    }
    QuarterLength(|bs|, 0);
    QuarterLength(|bs|, 1);
    QuarterLength(|bs|, 2);
    QuarterLength(|bs|, 3);
  }

  /** Four updates at four different seasons keep all four values. */
  lemma FourUpdates(s0: Season, s1: Season, s2: Season, s3: Season, v0: seq<int>, v1: seq<int>, v2: seq<int>, v3: seq<int>)
    requires s0 != s1 && s0 != s2 && s0 != s3 && s1 != s2 && s1 != s3 && s2 != s3
    ensures var m := map[s0 := v0][s1 := v1][s2 := v2][s3 := v3];
            m[s0] == v0 && m[s1] == v1 && m[s2] == v2 && m[s3] == v3
  {
  }

  /** The four turns of the loop, written out. */
  lemma AssignFour(bs: seq<Bucket>)
    requires HasSeasonKeys(bs, 4)
    ensures var c := Counts(bs);
            AssignSeasons(bs, 4) ==
              map[SeasonOf(bs, 0) := EveryFourth(c, 0)][SeasonOf(bs, 1) := EveryFourth(c, 1)]
                 [SeasonOf(bs, 2) := EveryFourth(c, 2)][SeasonOf(bs, 3) := EveryFourth(c, 3)]
  {
    var c := Counts(bs);
    assert AssignSeasons(bs, 1) == map[][SeasonOf(bs, 0) := EveryFourth(c, 0)];
    assert AssignSeasons(bs, 2) == AssignSeasons(bs, 1)[SeasonOf(bs, 1) := EveryFourth(c, 1)];
    assert AssignSeasons(bs, 3) == AssignSeasons(bs, 2)[SeasonOf(bs, 2) := EveryFourth(c, 2)];
    assert AssignSeasons(bs, 4) == AssignSeasons(bs, 3)[SeasonOf(bs, 3) := EveryFourth(c, 3)];
  }

  /** Four seasons that include every season are four different ones. */
  lemma CoveringSeasonsAreDistinct(s0: Season, s1: Season, s2: Season, s3: Season)
    requires {DJF, MAM, JJA, SON} <= {s0, s1, s2, s3}
    ensures s0 != s1 && s0 != s2 && s0 != s3 && s1 != s2 && s1 != s3 && s2 != s3
  {
  }

  /** Four different seasons are all the seasons there are. */
  lemma FourSeasonsCoverAll(s0: Season, s1: Season, s2: Season, s3: Season, s: Season)
    requires s0 != s1 && s0 != s2 && s0 != s3 && s1 != s2 && s1 != s3 && s2 != s3
    ensures s == s0 || s == s1 || s == s2 || s == s3
  {
  }

  /** The loop of `plot_seasonal_stackplot` that fills `season_counts`. */
  method SplitSeasons(bs: seq<Bucket>) returns (r: Result<map<Season, seq<int>>>)
    ensures r == SeasonSplit(bs)
  {
    if |bs| % 4 != 0 {
      return Failure(AssertionError);
    }
    if |bs| == 0 {
      return Failure(IndexError);
    }
    var counts := Counts(bs);
    var seasonCounts: map<Season, seq<int>> := map[];
    for i := 0 to 4
      invariant HasSeasonKeys(bs, i)
      invariant seasonCounts == AssignSeasons(bs, i)
    {
      var key := SeasonKey(bs[i].period.month);
      if key.None? {
        return Failure(KeyError);
      }
      seasonCounts := seasonCounts[key.value := EveryFourth(counts, i)];
    }
    if !(DJF in seasonCounts && MAM in seasonCounts && JJA in seasonCounts && SON in seasonCounts) {
      return Failure(KeyError);
    }
    return Success(seasonCounts);
  }

  /** The top of each stacked bar: DJF + MAM + JJA + SON of one year. */
  function StackHeights(m: map<Season, seq<int>>): (h: seq<int>)
    requires forall s :: s in m
    requires |m[MAM]| == |m[DJF]| && |m[JJA]| == |m[DJF]| && |m[SON]| == |m[DJF]|
  {
    seq(|m[DJF]|, j requires 0 <= j < |m[DJF]| => m[DJF][j] + m[MAM][j] + m[JJA][j] + m[SON][j])
  }

  function SumInts(s: seq<int>): int {
    if s == [] then 0 else s[0] + SumInts(s[1..])
  }

  /** The sum of each run of four consecutive buckets: one value per December-November year. */
  function YearTotals(bs: seq<Bucket>): (r: seq<int>)
    requires |bs| % 4 == 0
    ensures |bs| == 4 * |r|
    ensures forall y :: 0 <= y < |r| ==>
              r[y] == bs[4 * y].total + bs[4 * y + 1].total + bs[4 * y + 2].total + bs[4 * y + 3].total
    ensures SumInts(r) == BucketTotals(bs)
  {
    if bs == [] then []
    else
      var rest := YearTotals(bs[4..]);
      assert bs == bs[..4] + bs[4..];
      BucketTotalsAppend(bs[..4], bs[4..]);
      assert bs[..4] == [bs[0], bs[1], bs[2], bs[3]];
      BucketTotalsOfFour(bs[0], bs[1], bs[2], bs[3]);
      [bs[0].total + bs[1].total + bs[2].total + bs[3].total] + rest
  }

  lemma BucketTotalsOfFour(a: Bucket, b: Bucket, c: Bucket, d: Bucket)
    ensures BucketTotals([a, b, c, d]) == a.total + b.total + c.total + d.total
  {
    assert [a, b, c, d][1..] == [b, c, d];
    assert [b, c, d][1..] == [c, d];
    assert [c, d][1..] == [d];
    assert [d][1..] == [];
    assert BucketTotals([d]) == d.total;
    assert BucketTotals([c, d]) == c.total + d.total;
    assert BucketTotals([b, c, d]) == b.total + c.total + d.total;
  }

  /** Any order of the four seasons adds up the same. */
  lemma SeasonPermutationSum(s0: Season, s1: Season, s2: Season, s3: Season, f: Season -> int)
    requires s0 != s1 && s0 != s2 && s0 != s3 && s1 != s2 && s1 != s3 && s2 != s3
    ensures f(s0) + f(s1) + f(s2) + f(s3) == f(DJF) + f(MAM) + f(JJA) + f(SON)
  {
  }

  /**
   * Stacked bar `y` is the sum of the four buckets of year `y`, so the bars together show every
   * counted day once.
   */
  lemma StackHeightsPerYear(bs: seq<Bucket>)
    requires SeasonSplit(bs).Success?
    ensures var m := SeasonSplit(bs).value;
            (forall s :: s in m)
            && |m[MAM]| == |m[DJF]| && |m[JJA]| == |m[DJF]| && |m[SON]| == |m[DJF]|
            && |bs| % 4 == 0
            && StackHeights(m) == YearTotals(bs)
            && SumInts(StackHeights(m)) == BucketTotals(bs)
  {
    SeasonSplitMeaning(bs);
    SeasonSplitSeries(bs);
    var m := SeasonSplit(bs).value;
    var c := Counts(bs);
    var s0, s1, s2, s3 := SeasonOf(bs, 0), SeasonOf(bs, 1), SeasonOf(bs, 2), SeasonOf(bs, 3);
    assert DistinctSeasons(bs);
    assert s0 != s1 && s0 != s2 && s0 != s3 && s1 != s2 && s1 != s3 && s2 != s3;
    assert m[s0] == EveryFourth(c, 0) && m[s1] == EveryFourth(c, 1);
    assert m[s2] == EveryFourth(c, 2) && m[s3] == EveryFourth(c, 3);
    var q := |bs| / 4;
    assert |m[s0]| == q && |m[s1]| == q && |m[s2]| == q && |m[s3]| == q;
    forall s ensures |m[s]| == q {
      FourSeasonsCoverAll(s0, s1, s2, s3, s);
    }
    var h, yt := StackHeights(m), YearTotals(bs);
    forall y | 0 <= y < q ensures h[y] == yt[y] {
      SeasonPermutationSum(s0, s1, s2, s3, s => m[s][y]);
      assert m[s0][y] == c[4 * y] && m[s1][y] == c[1 + 4 * y];
      assert m[s2][y] == c[2 + 4 * y] && m[s3][y] == c[3 + 4 * y];
    }
  }

  // ----- Grouping by month of the year -----

  /** The sum of the values paired with `key`. */
  function SumWhere(items: seq<(int, int)>, key: int): int {
    if items == [] then 0 else (if items[0].0 == key then items[0].1 else 0) + SumWhere(items[1..], key)
  }

  function SumValues(items: seq<(int, int)>): int {
    if items == [] then 0 else items[0].1 + SumValues(items[1..])
  }

  lemma {:induction false} SumWhereSnoc(items: seq<(int, int)>, x: (int, int), key: int)
    ensures SumWhere(items + [x], key) == SumWhere(items, key) + (if x.0 == key then x.1 else 0)
  {
    if items == [] {
      assert items + [x] == [x];
    } else {
      assert (items + [x])[1..] == items[1..] + [x];
      SumWhereSnoc(items[1..], x, key);
    }
  }

  function GetOrZero(m: map<int, int>, k: int): int {
    if k in m then m[k] else 0
  }

  /**
   * `groupby(key).sum()`: one entry per key that occurs, holding the sum of its values.
   * With every value 1 it is `groupby(key).size()`.
   */
  function SumByKey(items: seq<(int, int)>): (r: map<int, int>)
    ensures forall k :: k in r <==> exists i :: 0 <= i < |items| && items[i].0 == k
    ensures forall k :: GetOrZero(r, k) == SumWhere(items, k)
  {
    if items == [] then map[]
    else
      var init, x := items[..|items| - 1], items[|items| - 1];
      var m := SumByKey(init);
      assert items == init + [x];
      forall k ensures SumWhere(items, k) == SumWhere(init, k) + (if x.0 == k then x.1 else 0) {
        SumWhereSnoc(init, x, k);
      }
      m[x.0 := (if x.0 in m then m[x.0] else 0) + x.1]
  }

  /** `plot_monthly_totals`: the aggregated counts grouped by calendar month of their bin. */
  function MonthlyTotals(bs: seq<Bucket>): map<int, int> {
    SumByKey(seq(|bs|, i requires 0 <= i < |bs| => (bs[i].period.month, bs[i].total)))
  }

  /** `month_days` in `main`: how many days of the zero-filled range fall in each calendar month. */
  function MonthDays(filled: seq<Entry>): map<int, int> {
    SumByKey(seq(|filled|, i requires 0 <= i < |filled| => (filled[i].date.month, 1)))
  }

  /** The grouped values of months 1 to `hi`. */
  function SumMonths(m: map<int, int>, hi: int): int
    decreases hi
  {
    if hi < 1 then 0 else SumMonths(m, hi - 1) + GetOrZero(m, hi)
  }

  lemma {:induction false} SumMonthsOfOne(x: (int, int), hi: int)
    ensures SumMonths(SumByKey([x]), hi) == if 1 <= x.0 <= hi then x.1 else 0
    decreases hi
  {
    if hi >= 1 {
      SumMonthsOfOne(x, hi - 1);
    }
  }

  lemma {:induction false} SumMonthsCons(x: (int, int), rest: seq<(int, int)>, hi: int)
    ensures SumMonths(SumByKey([x] + rest), hi) == SumMonths(SumByKey([x]), hi) + SumMonths(SumByKey(rest), hi)
    decreases hi
  {
    if hi >= 1 {
      SumMonthsCons(x, rest, hi - 1);
      var items := [x] + rest;
      assert items[1..] == rest;
      assert SumWhere([x], hi) == (if x.0 == hi then x.1 else 0) by {
        assert [x][1..] == [];
      }
    }
  }

  /** When every key is a calendar month, the twelve monthly groups add up to the whole. */
  lemma {:induction false} SumByMonthTotal(items: seq<(int, int)>)
    requires forall i :: 0 <= i < |items| ==> 1 <= items[i].0 <= 12
    ensures SumMonths(SumByKey(items), 12) == SumValues(items)
  {
    if items != [] {
      SumByMonthTotal(items[1..]);
      assert items == [items[0]] + items[1..];
      SumMonthsCons(items[0], items[1..], 12);
      SumMonthsOfOne(items[0], 12);
    }
  }

  /** Every aggregated count lands in exactly one of the twelve months of the histogram. */
  lemma MonthlyTotalsSum(bs: seq<Bucket>)
    requires forall i :: 0 <= i < |bs| ==> 1 <= bs[i].period.month <= 12
    ensures SumMonths(MonthlyTotals(bs), 12) == BucketTotals(bs)
  {
    var items := seq(|bs|, i requires 0 <= i < |bs| => (bs[i].period.month, bs[i].total));
    SumByMonthTotal(items);
    ValuesOfBuckets(bs);
  }

  lemma {:induction false} ValuesOfBuckets(bs: seq<Bucket>)
    ensures SumValues(seq(|bs|, i requires 0 <= i < |bs| => (bs[i].period.month, bs[i].total))) == BucketTotals(bs)
  {
    if bs != [] {
      ValuesOfBuckets(bs[1..]);
      var items := seq(|bs|, i requires 0 <= i < |bs| => (bs[i].period.month, bs[i].total));
      assert items[1..] == seq(|bs[1..]|, i requires 0 <= i < |bs[1..]| => (bs[1..][i].period.month, bs[1..][i].total));
    }
  }

  /** `month_days` counts every day of the filled range once, under its own month. */
  lemma MonthDaysCount(filled: seq<Entry>)
    requires AllValid(filled)
    ensures SumMonths(MonthDays(filled), 12) == |filled|
    ensures forall m :: m in MonthDays(filled) ==> 1 <= m <= 12 && MonthDays(filled)[m] >= 1
  {
    var items := seq(|filled|, i requires 0 <= i < |filled| => (filled[i].date.month, 1));
    SumByMonthTotal(items);
    OnesCount(items);
    forall m | m in MonthDays(filled) ensures MonthDays(filled)[m] >= 1 {
      var i :| 0 <= i < |items| && items[i].0 == m;
      SumWhereOnes(items, m, i);
    }
  }

  lemma {:induction false} OnesCount(items: seq<(int, int)>)
    requires forall i :: 0 <= i < |items| ==> items[i].1 == 1
    ensures SumValues(items) == |items|
  {
    if items != [] {
      OnesCount(items[1..]);
    }
  }

  lemma {:induction false} SumWhereOnes(items: seq<(int, int)>, key: int, i: nat)
    requires forall j :: 0 <= j < |items| ==> items[j].1 == 1
    requires i < |items| && items[i].0 == key
    ensures SumWhere(items, key) >= 1
  {
    if i > 0 {
      SumWhereOnes(items[1..], key, i - 1);
      SumWhereNonNegative(items[1..], key);
    } else {
      SumWhereNonNegative(items[1..], key);
    }
  }

  lemma {:induction false} SumWhereNonNegative(items: seq<(int, int)>, key: int)
    requires forall j :: 0 <= j < |items| ==> items[j].1 == 1
    ensures SumWhere(items, key) >= 0
  {
    if items != [] {
      SumWhereNonNegative(items[1..], key);
    }
  }

  // ----- main -----

  /** What one plot of `main` is drawn from. */
  datatype PlotData =
    | MonthlyHistogram(totals: map<int, int>, monthDays: map<int, int>)
    | SeasonalStack(series: map<Season, seq<int>>, heights: seq<int>)

  /** `dates_df`: a count of 1 for every date of the list. */
  function Ones(dates: seq<Date>): (es: seq<Entry>)
    ensures |es| == |dates|
    ensures forall i :: 0 <= i < |es| ==> es[i] == Entry(dates[i], 1)
  {
    seq(|dates|, i requires 0 <= i < |dates| => Entry(dates[i], 1))
  }

  /** Both groupings of the histogram hold exactly one value per calendar month. */
  predicate CoversMonths(m: map<int, int>) {
    (forall k :: k in m ==> 1 <= k <= 12) && (forall k :: 1 <= k <= 12 ==> k in m)
  }

  /**
   * The monthly-totals histogram: fill the whole window with zeros, bin by month, and group
   * both the bins and the filled days by calendar month. `plot_monthly_totals` divides the two
   * groupings element by element and draws twelve bars, so anything other than one value per
   * calendar month on both sides raises ValueError.
   */
  function HistogramFor(filtered: seq<Entry>, start: Date, end: Date, rules: BinRules): Result<PlotData>
    requires Valid(start) && Valid(end)
  {
    var filled :- FillOutDates(filtered, start, end);
    var monthly :- AggregateData(filled, "monthly", rules);
    var totals, days := MonthlyTotals(monthly), MonthDays(filled);
    if CoversMonths(totals) && CoversMonths(days) then Success(MonthlyHistogram(totals, days))
    else Failure(ValueError)
  }

  /** The seasonal stack plot: trim to whole Dec-Nov years, fill, bin by season, split by season. */
  function StackFor(filtered: seq<Entry>, start: Date, end: Date, rules: BinRules): Result<PlotData>
    requires Valid(start) && Valid(end)
  {
    var bounds :- SeasonalBounds(start, end);
    var filled :- FillOutDates(filtered, bounds.0, bounds.1);
    var seasonal :- AggregateData(filled, "seasonal", rules);
    SeasonalStackOf(seasonal)
  }

  /** `plot_seasonal_stackplot`: split the season bins into four series and stack them per year. */
  function SeasonalStackOf(seasonal: seq<Bucket>): (r: Result<PlotData>)
    ensures r.Success? <==> SeasonSplit(seasonal).Success?
    ensures r.Success? ==>
      && r.value.SeasonalStack? && r.value.series == SeasonSplit(seasonal).value
      && |seasonal| % 4 == 0 && r.value.heights == YearTotals(seasonal)
  {
    var series :- SeasonSplit(seasonal);
    StackHeightsPerYear(seasonal);
    Success(SeasonalStack(series, StackHeights(series)))
  }

  /** The body of `main`'s loop for one plot type, from the filtered frame. */
  function PlotFor(plotType: string, filtered: seq<Entry>, start: Date, end: Date, rules: BinRules): Result<PlotData>
    requires Valid(start) && Valid(end)
  {
    if plotType == "monthly_totals_histogram" then HistogramFor(filtered, start, end, rules)
    else if plotType == "seasonal_values_stackplot" then StackFor(filtered, start, end, rules)
    else Failure(AssertionError)
  }

  /** The monthly bins of a frequency grouper are labelled by dates. */
  ghost predicate MonthBinsAreDates(rules: BinRules) {
    forall d :: Valid(rules.monthly(d))
  }

  /**
   * A histogram that is drawn has a total for each calendar month, and these totals account for
   * every counted day of the window except those of the last (dropped) month bin.
   */
  lemma HistogramMeaning(filtered: seq<Entry>, start: Date, end: Date, rules: BinRules)
    requires Valid(start) && Valid(end) && AllValid(filtered) && MonthBinsAreDates(rules)
    requires HistogramFor(filtered, start, end, rules).Success?
    ensures var all := Buckets(FillOutDates(filtered, start, end).value, rules.monthly);
            var h := HistogramFor(filtered, start, end, rules).value;
            && h.MonthlyHistogram? && CoversMonths(h.totals) && |all| >= 1
            && SumMonths(h.totals, 12) + all[|all| - 1].total == Total(TimeFilter(filtered, start, end))
  {
    HistogramParts(filtered, start, end, rules);
    var filled := FillOutDates(filtered, start, end).value;
    FillOutDatesValid(filtered, start, end);
    assert DistinctDates(filtered) by {
      OrderIsTotal(start, end);
    }
    FillOutDatesTotal(filtered, start, end);
    MonthlyAggregateTotal(filled, rules);
  }

  /**
   * The day counts of a histogram that is drawn cover every calendar month, none of them empty,
   * and add up to the days of the window: the percentages divide by a positive count.
   */
  lemma HistogramDays(filtered: seq<Entry>, start: Date, end: Date, rules: BinRules)
    requires Valid(start) && Valid(end)
    requires HistogramFor(filtered, start, end, rules).Success?
    ensures var h := HistogramFor(filtered, start, end, rules).value;
            && h.MonthlyHistogram? && CoversMonths(h.monthDays)
            && SumMonths(h.monthDays, 12) == |DateRange(start, end)|
            && forall m :: m in h.monthDays ==> h.monthDays[m] >= 1
  {
    HistogramParts(filtered, start, end, rules);
    FillOutDatesValid(filtered, start, end);
    MonthDaysCount(FillOutDates(filtered, start, end).value);
  }

  /** The steps of a histogram that is drawn all succeed. */
  lemma HistogramParts(filtered: seq<Entry>, start: Date, end: Date, rules: BinRules)
    requires Valid(start) && Valid(end)
    requires HistogramFor(filtered, start, end, rules).Success?
    ensures FillOutDates(filtered, start, end).Success?
    ensures var filled := FillOutDates(filtered, start, end).value;
            && AggregateData(filled, "monthly", rules).Success?
            && var totals := MonthlyTotals(AggregateData(filled, "monthly", rules).value);
               && CoversMonths(totals) && CoversMonths(MonthDays(filled))
               && HistogramFor(filtered, start, end, rules).value == MonthlyHistogram(totals, MonthDays(filled))
  {
  }

  /** The month totals and the dropped last bin add up to the frame's total. */
  lemma MonthlyAggregateTotal(filled: seq<Entry>, rules: BinRules)
    requires MonthBinsAreDates(rules) && AggregateData(filled, "monthly", rules).Success?
    ensures var all := Buckets(filled, rules.monthly);
            |all| >= 1
            && SumMonths(MonthlyTotals(AggregateData(filled, "monthly", rules).value), 12) + all[|all| - 1].total
               == Total(filled)
  {
    var all := Buckets(filled, rules.monthly);
    assert TimescaleBin("monthly", rules) == rules.monthly;
    MonthBinMonths(all, filled, rules);
    MonthTotalsWithDropped(all);
  }

  /** Grouping all but the last bin by month keeps their sum. */
  lemma MonthTotalsWithDropped(all: seq<Bucket>)
    requires |all| >= 1 && forall i :: 0 <= i < |all| ==> 1 <= all[i].period.month <= 12
    ensures SumMonths(MonthlyTotals(all[..|all| - 1]), 12) + all[|all| - 1].total == BucketTotals(all)
  {
    var monthly := all[..|all| - 1];
    assert forall i :: 0 <= i < |monthly| ==> monthly[i] == all[i];
    MonthlyTotalsSum(monthly);
    BucketTotalsDropLast(all);
  }

  lemma MonthBinMonths(all: seq<Bucket>, filled: seq<Entry>, rules: BinRules)
    requires MonthBinsAreDates(rules) && all == Buckets(filled, rules.monthly)
    ensures forall i :: 0 <= i < |all| ==> 1 <= all[i].period.month <= 12
  {
    forall i | 0 <= i < |all| ensures 1 <= all[i].period.month <= 12 {
      assert Valid(rules.monthly(Runs(filled, rules.monthly)[i][0].date));
    }
  }

  /**
   * A stack plot that is drawn has one height per whole season year, each the sum of that year's
   * four season bins, and the heights with the dropped last bin add up to the counted days
   * between the seasonal bounds.
   */
  lemma StackMeaning(filtered: seq<Entry>, start: Date, end: Date, rules: BinRules)
    requires Valid(start) && Valid(end) && AllValid(filtered)
    requires StackFor(filtered, start, end, rules).Success?
    ensures var bounds := SeasonalBounds(start, end).value;
            var all := Buckets(FillOutDates(filtered, bounds.0, bounds.1).value, rules.seasonal);
            var p := StackFor(filtered, start, end, rules).value;
            && p.SeasonalStack? && |all| >= 1
            && 4 * |p.heights| == |all| - 1
            && (forall y :: 0 <= y < |p.heights| ==>
                  p.heights[y] == all[4 * y].total + all[4 * y + 1].total + all[4 * y + 2].total + all[4 * y + 3].total)
            && SumInts(p.heights) + all[|all| - 1].total == Total(TimeFilter(filtered, bounds.0, bounds.1))
  {
    StackParts(filtered, start, end, rules);
    var bounds := SeasonalBounds(start, end).value;
    var filled := FillOutDates(filtered, bounds.0, bounds.1).value;
    var seasonal := AggregateData(filled, "seasonal", rules).value;
    var all := Buckets(filled, rules.seasonal);
    assert |all| >= 1 && seasonal == all[..|all| - 1] by {
      assert TimescaleBin("seasonal", rules) == rules.seasonal;
    }
    StackOfBuckets(all);
    assert Total(filled) == Total(TimeFilter(filtered, bounds.0, bounds.1)) by {
      FillOutDatesValid(filtered, bounds.0, bounds.1);
      OrderIsTotal(bounds.0, bounds.1);
      FillOutDatesTotal(filtered, bounds.0, bounds.1);
    }
  }

  /** The steps of a stack plot that is drawn all succeed. */
  lemma StackParts(filtered: seq<Entry>, start: Date, end: Date, rules: BinRules)
    requires Valid(start) && Valid(end)
    requires StackFor(filtered, start, end, rules).Success?
    ensures SeasonalBounds(start, end).Success?
    ensures var bounds := SeasonalBounds(start, end).value;
            && FillOutDates(filtered, bounds.0, bounds.1).Success?
            && AggregateData(FillOutDates(filtered, bounds.0, bounds.1).value, "seasonal", rules).Success?
            && StackFor(filtered, start, end, rules)
               == SeasonalStackOf(AggregateData(FillOutDates(filtered, bounds.0, bounds.1).value, "seasonal", rules).value)
  {
  }

  /**
   * Stacking all season bins but the last gives one height per four bins, each the sum of its
   * four, and the heights with the last bin add up to all the bins.
   */
  lemma StackOfBuckets(all: seq<Bucket>)
    requires |all| >= 1 && SeasonalStackOf(all[..|all| - 1]).Success?
    ensures var p := SeasonalStackOf(all[..|all| - 1]).value;
            && 4 * |p.heights| == |all| - 1
            && (forall y :: 0 <= y < |p.heights| ==>
                  p.heights[y] == all[4 * y].total + all[4 * y + 1].total + all[4 * y + 2].total + all[4 * y + 3].total)
            && SumInts(p.heights) + all[|all| - 1].total == BucketTotals(all)
  {
    var seasonal := all[..|all| - 1];
    var heights := SeasonalStackOf(seasonal).value.heights;
    forall y | 0 <= y < |heights|
      ensures heights[y] == all[4 * y].total + all[4 * y + 1].total + all[4 * y + 2].total + all[4 * y + 3].total
    {
      assert seasonal[4 * y] == all[4 * y] && seasonal[4 * y + 3] == all[4 * y + 3];
      assert seasonal[4 * y + 1] == all[4 * y + 1] && seasonal[4 * y + 2] == all[4 * y + 2];
    }
    BucketTotalsDropLast(all);
  }

  /** One turn of `main`'s loop. */
  method Plot(plotType: string, filtered: seq<Entry>, start: Date, end: Date, rules: BinRules) returns (r: Result<PlotData>)
    requires Valid(start) && Valid(end)
    ensures r == PlotFor(plotType, filtered, start, end, rules)
  {
    if plotType == "monthly_totals_histogram" {
      var filled :- FillOutDates(filtered, start, end);
      var monthly :- AggregateData(filled, "monthly", rules);
      var totals, days := MonthlyTotals(monthly), MonthDays(filled);
      if !CoversMonths(totals) || !CoversMonths(days) {
        return Failure(ValueError);
      }
      return Success(MonthlyHistogram(totals, days));
    } else if plotType == "seasonal_values_stackplot" {
      var bounds :- SeasonalBounds(start, end);
      var filled :- FillOutDates(filtered, bounds.0, bounds.1);
      var seasonal :- AggregateData(filled, "seasonal", rules);
      var series :- SplitSeasons(seasonal);
      StackHeightsPerYear(seasonal);
      return Success(SeasonalStack(series, StackHeights(series)));
    } else {
      return Failure(AssertionError);
    }
  }

  /** The values of a run of steps in order, or the error of the first step that fails. */
  function Collect<T>(outcomes: seq<Result<T>>): Result<seq<T>> {
    if outcomes == [] then Success([])
    else
      var earlier :- Collect(outcomes[..|outcomes| - 1]);
      var last :- outcomes[|outcomes| - 1];
      Success(earlier + [last])
  }

  /** Once a prefix of the steps fails, the whole run fails with the same error. */
  lemma {:induction false} CollectPrefixFails<T>(outcomes: seq<Result<T>>, n: nat)
    requires n <= |outcomes| && Collect(outcomes[..n]).Failure?
    ensures Collect(outcomes) == Collect(outcomes[..n])
  {
    if n < |outcomes| {
      var init := outcomes[..|outcomes| - 1];
      assert init[..n] == outcomes[..n];
      CollectPrefixFails(init, n);
    } else {
      assert outcomes[..n] == outcomes;
    }
  }

  /**
   * A run succeeds with one value per step, each that step's value; a run fails with the error
   * of a step that fails while every step before it succeeds.
   */
  lemma {:induction false} CollectMeaning<T>(outcomes: seq<Result<T>>)
    ensures var r := Collect(outcomes);
      && (r.Success? ==>
            && |r.value| == |outcomes|
            && forall i :: 0 <= i < |outcomes| ==> outcomes[i] == Success(r.value[i]))
      && (r.Failure? ==>
            exists i :: 0 <= i < |outcomes|
              && outcomes[i] == Failure(r.error)
              && forall k :: 0 <= k < i ==> outcomes[k].Success?)
  {
    if outcomes != [] {
      var n := |outcomes| - 1;
      var init := outcomes[..n];
      CollectMeaning(init);
      assert forall k :: 0 <= k < n ==> init[k] == outcomes[k];
      var ri := Collect(init);
      if ri.Failure? {
        var i :| 0 <= i < |init| && init[i] == Failure(ri.error) && forall k :: 0 <= k < i ==> init[k].Success?;
        assert outcomes[i] == Failure(ri.error);
      }
    }
  }

  /** One more step: a failing step ends the run with its error, a succeeding one adds its value. */
  lemma CollectStep<T>(outcomes: seq<Result<T>>, i: nat, values: seq<T>)
    requires i < |outcomes| && Collect(outcomes[..i]) == Success(values)
    ensures outcomes[i].Failure? ==> Collect(outcomes) == Failure(outcomes[i].error)
    ensures outcomes[i].Success? ==> Collect(outcomes[..i + 1]) == Success(values + [outcomes[i].value])
  {
    assert outcomes[..i + 1][..i] == outcomes[..i];
    if outcomes[i].Failure? {
      CollectPrefixFails(outcomes, i + 1);
    }
  }

  /** What each requested plot type gives, in request order. */
  function Outcomes(plotTypes: seq<string>, filtered: seq<Entry>, start: Date, end: Date, rules: BinRules): (os: seq<Result<PlotData>>)
    requires Valid(start) && Valid(end)
    ensures |os| == |plotTypes|
    ensures forall i :: 0 <= i < |plotTypes| ==> os[i] == PlotFor(plotTypes[i], filtered, start, end, rules)
  {
    seq(|plotTypes|, i requires 0 <= i < |plotTypes| => PlotFor(plotTypes[i], filtered, start, end, rules))
  }

  /** `main`'s loop over the requested plot types, in order; the first failing plot ends the run. */
  method PlotAll(plotTypes: seq<string>, filtered: seq<Entry>, start: Date, end: Date, rules: BinRules)
    returns (r: Result<seq<PlotData>>)
    requires Valid(start) && Valid(end)
    ensures r == Collect(Outcomes(plotTypes, filtered, start, end, rules))
  {
    ghost var outcomes := Outcomes(plotTypes, filtered, start, end, rules);
    var plots: seq<PlotData> := [];
    for i := 0 to |plotTypes|
      invariant Collect(outcomes[..i]) == Success(plots)
    {
      var plot := Plot(plotTypes[i], filtered, start, end, rules);
      assert outcomes[i] == plot;
      CollectStep(outcomes, i, plots);
      if plot.Failure? {
        return Failure(plot.error);
      }
      plots := plots + [plot.value];
    }
    assert outcomes[..|plotTypes|] == outcomes;
    return Success(plots);
  }

  /**
   * `main` after reading the date list: a count of 1 per date, filtered to the bounds, then one
   * plot per requested type: by `CollectMeaning`, the plot of every requested type, or the error
   * of the first type whose plot fails.
   */
  method PlotDateList(dates: seq<Date>, start: Date, end: Date, plotTypes: seq<string>, rules: BinRules)
    returns (r: Result<seq<PlotData>>)
    requires Valid(start) && Valid(end)
    ensures r == Collect(Outcomes(plotTypes, TimeFilter(Ones(dates), start, end), start, end, rules))
  {
    var filtered := TimeFilter(Ones(dates), start, end);
    r := PlotAll(plotTypes, filtered, start, end, rules);
  }
}
