/**
 * modules/convenient_anaconda.py: the datetime mask of `pandas_dt_selector`, and the parts of
 * `nc_to_df` that do not read files (the latitude selection options and the assembly of the
 * table column by column). The netCDF reader is a parameter.
 */
module ConvenientAnaconda {
  import opened Results
  import opened Calendar

  /** `month_selection`: the calendar months of each season label. */
  const MonthSelection: map<string, set<int>> :=
    map["DJF" := {12, 1, 2}, "MAM" := {3, 4, 5}, "JJA" := {6, 7, 8}, "SON" := {9, 10, 11}]

  /** A filter argument is used only when it is truthy: given, and not the empty string. */
  predicate Active(season: Option<string>) {
    season.Some? && season.value != ""
  }

  /** What the mask keeps of one date, the season label being known. */
  predicate Selected(d: Date, season: Option<string>, start: Option<Date>, end: Option<Date>)
    requires Active(season) ==> season.value in MonthSelection
  {
    && (Active(season) ==> d.month in MonthSelection[season.value])
    && (start.Some? ==> AtOrBefore(start.value, d))
    && (end.Some? ==> AtOrBefore(d, end.value))
  }

  /** The element-wise `&` of two boolean arrays of the same length. */
  function And(a: seq<bool>, b: seq<bool>): (r: seq<bool>)
    requires |a| == |b|
    ensures |r| == |a|
    ensures forall i :: 0 <= i < |r| ==> (r[i] <==> a[i] && b[i])
  {
    seq(|a|, i requires 0 <= i < |a| => a[i] && b[i])
  }

  /**
   * `pandas_dt_selector`: start from all true and AND in each filter that is given. The season
   * label is looked up once per date, so an unknown label raises KeyError only when there is at
   * least one date.
   */
  method PandasDtSelector(times: seq<Date>, season: Option<string>, start: Option<Date>, end: Option<Date>)
    returns (r: Result<seq<bool>>)
    ensures r.Failure? <==> Active(season) && season.value !in MonthSelection && |times| > 0
    ensures r.Failure? ==> r.error == KeyError
    ensures r.Success? ==>
      && |r.value| == |times|
      && (Active(season) && season.value !in MonthSelection ==> r.value == [])
      && (!Active(season) || season.value in MonthSelection ==>
            forall i :: 0 <= i < |times| ==> (r.value[i] <==> Selected(times[i], season, start, end)))
  {
    var combined := seq(|times|, i => true);
    if Active(season) {
      if season.value !in MonthSelection {
        if |times| > 0 {
          return Failure(KeyError);
        }
        return Success([]);
      }
      var months := MonthSelection[season.value];
      var seasonSelection := seq(|times|, i requires 0 <= i < |times| => times[i].month in months);
      combined := And(combined, seasonSelection);
    }
    if start.Some? {
      var startSelection := seq(|times|, i requires 0 <= i < |times| => AtOrBefore(start.value, times[i]));
      combined := And(combined, startSelection);
    }
    if end.Some? {
      var endSelection := seq(|times|, i requires 0 <= i < |times| => AtOrBefore(times[i], end.value));
      combined := And(combined, endSelection);
    }
    return Success(combined);
  }

  /** With no filter given, every date is selected. */
  lemma NoFilterSelectsAll(d: Date)
    ensures Selected(d, None, None, None)
  {
  }

  /** Each season label selects exactly its three months; DJF spans the turn of the year. */
  lemma SeasonMonths(d: Date, season: string)
    requires season in MonthSelection
    ensures Selected(d, Some(season), None, None) <==>
      match season
      case "DJF" => d.month == 12 || d.month == 1 || d.month == 2
      case "MAM" => 3 <= d.month <= 5
      case "JJA" => 6 <= d.month <= 8
      case _ => 9 <= d.month <= 11
  {
  }

  /** Adding a filter never turns a deselected date into a selected one. */
  lemma FiltersOnlyNarrow(d: Date, season: Option<string>, start: Option<Date>, end: Option<Date>)
    requires Active(season) ==> season.value in MonthSelection
    requires Selected(d, season, start, end)
    ensures Selected(d, None, start, end)
    ensures Selected(d, season, None, end)
    ensures Selected(d, season, start, None)
  {
  }

  /** ANDing the filters in any order gives the same mask. */
  lemma FilterOrderIrrelevant(m: seq<bool>, a: seq<bool>, b: seq<bool>)
    requires |m| == |a| == |b|
    ensures And(And(m, a), b) == And(And(m, b), a)
  {
  }

  /** Both bounds are inclusive: a date equal to a bound is kept. */
  lemma BoundsInclusive(d: Date, season: Option<string>)
    requires Active(season) ==> season.value in MonthSelection
    requires Active(season) ==> d.month in MonthSelection[season.value]
    ensures Selected(d, season, Some(d), Some(d))
  {
  }

  // ----- nc_to_df -----

  /** The `latitude` option passed to the reader. */
  datatype Latitude = AllLatitudes | OneLatitude(lat: real) | LatitudeBand(first: real, second: real)

  /** The options `nc_to_df` passes on to the reader. */
  datatype ReadOptions = ReadOptions(latitude: Latitude, mermax: bool, spatave: bool)

  /** The `lat` argument: (min, max, method). */
  datatype LatSpec = LatSpec(min: real, max: real, reduction: string)

  /**
   * The selection options of `nc_to_df`: equal bounds ask for one latitude and no reduction;
   * otherwise the band is passed as given and the method must be 'mermax' or 'spatave'
   * (an AssertionError otherwise), and that method's flag is set.
   */
  function LatitudeOptions(lat: Option<LatSpec>): (r: Result<ReadOptions>)
    ensures lat.None? ==> r == Success(ReadOptions(AllLatitudes, false, false))
    ensures lat.Some? && lat.value.min == lat.value.max ==>
              r == Success(ReadOptions(OneLatitude(lat.value.min), false, false))
    ensures lat.Some? && lat.value.min != lat.value.max ==>
              (r.Success? <==> lat.value.reduction in {"mermax", "spatave"})
              && (r.Failure? ==> r.error == AssertionError)
              && (r.Success? ==> r.value.latitude == LatitudeBand(lat.value.min, lat.value.max)
                                 && (r.value.mermax <==> lat.value.reduction == "mermax")
                                 && (r.value.spatave <==> lat.value.reduction == "spatave"))
  {
    match lat
    case None => Success(ReadOptions(AllLatitudes, false, false))
    case Some(LatSpec(lo, hi, reduction)) =>
      if lo == hi then Success(ReadOptions(OneLatitude(lo), false, false))
      else if reduction == "mermax" then Success(ReadOptions(LatitudeBand(lo, hi), true, false))
      else if reduction == "spatave" then Success(ReadOptions(LatitudeBand(lo, hi), false, true))
      else Failure(AssertionError)
  }

  /** What the reader gives for one variable: its time axis, its values, the file's history attribute. */
  datatype Variable = Variable(times: seq<string>, values: seq<real>, history: Option<string>)

  /** The data frame `nc_to_df` returns with the history attribute. */
  datatype Table = Table(index: seq<string>, headers: seq<string>, data: array2<real>, history: string)

  /** numpy assigns a column from an array of the column's length, or broadcasts one value. */
  predicate Fits(values: seq<real>, rows: nat) {
    |values| == rows || |values| == 1
  }

  function Cell(values: seq<real>, t: nat): real
    requires |values| > 0
  {
    if |values| == 1 then values[0] else if t < |values| then values[t] else 0.0
  }

  /** Writes `values` into column `j` of `data`, as `data[:, j] = values` does. */
  method FillColumn(data: array2<real>, j: nat, values: seq<real>)
    requires j < data.Length1 && Fits(values, data.Length0)
    modifies data
    ensures forall t, k :: 0 <= t < data.Length0 && 0 <= k < data.Length1 ==>
              data[t, k] == if k == j then Cell(values, t) else old(data[t, k])
  {
    for t := 0 to data.Length0
      invariant forall u, k :: 0 <= u < data.Length0 && 0 <= k < data.Length1 ==>
                  data[u, k] == if k == j && u < t then Cell(values, u) else old(data[u, k])
    {
      data[t, j] := Cell(values, t);
    }
  }

  /**
   * `nc_to_df` without the file: the first variable fixes the time axis, one column per variable
   * is filled in order, the headers are the variable names, and the history attribute comes from
   * the last variable read. An empty variable list raises IndexError, a column of the wrong
   * length ValueError, a missing history attribute KeyError.
   */
  method NcToDf(varList: seq<string>, lat: Option<LatSpec>, read: (string, ReadOptions) -> Variable)
    returns (r: Result<Table>)
    ensures LatitudeOptions(lat).Failure? ==> r == Failure(AssertionError)
    ensures LatitudeOptions(lat).Success? && varList == [] ==> r == Failure(IndexError)
    ensures r.Success? ==>
      var opts := LatitudeOptions(lat).value;
      var rows := |read(varList[0], opts).times|;
      && LatitudeOptions(lat).Success? && |varList| > 0
      && fresh(r.value.data)
      && r.value.index == read(varList[0], opts).times
      && r.value.headers == varList
      && r.value.data.Length0 == rows && r.value.data.Length1 == |varList|
      && (forall j :: 0 <= j < |varList| ==> Fits(read(varList[j], opts).values, rows))
      && (forall t, j :: 0 <= t < rows && 0 <= j < |varList| ==>
            r.value.data[t, j] == Cell(read(varList[j], opts).values, t))
      && read(varList[|varList| - 1], opts).history == Some(r.value.history)
    ensures LatitudeOptions(lat).Success? && varList != [] ==>
      var opts := LatitudeOptions(lat).value;
      var rows := |read(varList[0], opts).times|;
      var allFit := forall j :: 0 <= j < |varList| ==> Fits(read(varList[j], opts).values, rows);
      var history := read(varList[|varList| - 1], opts).history;
      && (!allFit ==> r == Failure(ValueError))
      && (allFit && history.None? ==> r == Failure(KeyError))
      && (allFit && history.Some? ==> r.Success?)
  {
    var options := LatitudeOptions(lat);
    if options.Failure? {
      return Failure(options.error);
    }
    var opts := options.value;
    if varList == [] {
      return Failure(IndexError);
    }
    var indata := read(varList[0], opts);
    var rows := |indata.times|;
    var data := new real[rows, |varList|];
    if !Fits(indata.values, rows) {
      return Failure(ValueError);
    }
    FillColumn(data, 0, indata.values);
    var headers := [varList[0]];
    for i := 1 to |varList|
      invariant |headers| == i && headers == varList[..i]
      invariant indata == read(varList[i - 1], opts)
      invariant forall j :: 0 <= j < i ==> Fits(read(varList[j], opts).values, rows)
      invariant forall t, j :: 0 <= t < rows && 0 <= j < i ==> data[t, j] == Cell(read(varList[j], opts).values, t)
    {
      indata := read(varList[i], opts);
      if !Fits(indata.values, rows) {
        return Failure(ValueError);
      }
      FillColumn(data, i, indata.values);
      headers := headers + [varList[i]];
    }
    if indata.history.None? {
      return Failure(KeyError);
    }
    return Success(Table(read(varList[0], opts).times, headers, data, indata.history.value));
  }
}
