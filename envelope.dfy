/**
 * visualisation/plot_envelope.py without the drawing: the time-axis check of `extract_data`,
 * the axis list of `restore_env`, and `main`'s loop over the time steps with its per-timescale
 * constants, date suffix, output file name, title and shrinking tick list. Files are read by a
 * reader passed in; the rotation and the map drawing are not modelled.
 */
module PlotEnvelope {
  import opened Results
  import opened Text

  /** A variable read from a file: its name and its time axis, as component-time strings. */
  datatype Field = Field(name: string, times: seq<string>)

  /** The colour-bar and wind-arrow settings chosen by the timescale. */
  datatype Settings = Settings(ticks: seq<int>, keyValue: int, quiverScale: int, quiverWidth: real)

  /** Monthly: ticks 0..12 by 1, key 5, scale 200; otherwise (daily): ticks 0..24 by 2, key 10, scale 300. */
  function InitialSettings(timescale: string): (s: Settings)
    ensures |s.ticks| == 13 && s.quiverWidth == 0.002
    ensures timescale == "monthly" ==>
              (forall i :: 0 <= i < 13 ==> s.ticks[i] == i) && s.keyValue == 5 && s.quiverScale == 200
    ensures timescale != "monthly" ==>
              (forall i :: 0 <= i < 13 ==> s.ticks[i] == 2 * i) && s.keyValue == 10 && s.quiverScale == 300
  {
    if timescale == "monthly" then Settings([0, 1, 2, 3, 4, 5, 6, 7, 8, 9, 10, 11, 12], 5, 200, 0.002)
    else Settings([0, 2, 4, 6, 8, 10, 12, 14, 16, 18, 20, 22, 24], 10, 300, 0.002)
  }

  /**
   * `str(date).split(' ')[0].split('-')` unpacked into year, month and day (ValueError unless
   * there are exactly three pieces), joined back as 'YYYY-MM' for monthly data and 'YYYY-MM-DD'
   * otherwise.
   */
  function DateSuffix(date: string, timescale: string): Result<string> {
    var pieces := Split(Split(date, ' ')[0], '-');
    if |pieces| != 3 then Failure(ValueError)
    else if timescale == "monthly" then Success(pieces[0] + "-" + pieces[1])
    else Success(pieces[0] + "-" + pieces[1] + "-" + pieces[2])
  }

  /** A date printed as 'Y-M-D h:m:s' gives its 'Y-M' or 'Y-M-D' part back as the suffix. */
  lemma DateSuffixOfDate(y: string, m: string, d: string, clock: string, timescale: string)
    requires '-' !in y && '-' !in m && '-' !in d
    requires ' ' !in y && ' ' !in m && ' ' !in d
    ensures DateSuffix(y + "-" + m + "-" + d + " " + clock, timescale) ==
            Success(if timescale == "monthly" then y + "-" + m else y + "-" + m + "-" + d)
  {
    var day := y + "-" + m + "-" + d;
    assert ' ' !in day by {
      assert forall c :: c in day ==> c in y || c == '-' || c in m || c in d;
    }
    SplitAtSeparator(day, clock, ' ');
    assert day + " " + clock == day + [' '] + clock;
    assert day == Join([y, m, d], '-') by {
      assert Join([y, m, d], '-') == y + ['-'] + Join([m, d], '-');
      assert [y, m, d][1..] == [m, d];
      assert [m, d][1..] == [d];
      assert Join([m, d], '-') == m + ['-'] + d;
      assert y + ['-'] + (m + ['-'] + d) == y + "-" + m + "-" + d;
    }
    SplitJoin([y, m, d], '-');
  }

  /** `tick_list[0:-1]`: drop the last tick, if any. */
  function DropLast(ticks: seq<int>): seq<int> {
    if ticks == [] then [] else ticks[..|ticks| - 1]
  }

  /** The tick list after `k` time steps. */
  function TicksAfter(ticks: seq<int>, k: nat): seq<int> {
    if k == 0 then ticks else DropLast(TicksAfter(ticks, k - 1))
  }

  /** After `k` steps the first `max(n - k, 0)` ticks remain; once empty the list stays empty. */
  lemma {:induction false} TicksAfterPrefix(ticks: seq<int>, k: nat)
    ensures TicksAfter(ticks, k) == if k <= |ticks| then ticks[..|ticks| - k] else []
  {
    if k > 0 {
      TicksAfterPrefix(ticks, k - 1);
    }
  }

  /** What `plot_map.multiplot` is given for one field at one time step. */
  datatype Slice = Slice(field: string, date: string, suffix: string)

  /** The arguments of one `plot_map.multiplot` call that the model tracks. */
  datatype Step = Step(ofile: string, title: string, ticks: seq<int>, env: Slice,
                       uwind: Option<Slice>, vwind: Option<Slice>, sf: Option<Slice>)

  const TitlePrefix := "Wave envelope, 250hPa wind & sf anomaly, "

  function SliceOf(f: Option<Field>, date: string, suffix: string): (s: Option<Slice>)
    ensures s.Some? <==> f.Some?
  {
    if f.Some? then Some(Slice(f.value.name, date, suffix)) else None
  }

  /** The plot of step `k`, once its date suffix is known. */
  function StepAt(env: Field, u: Option<Field>, v: Option<Field>, sf: Option<Field>,
                  timescale: string, ofile: string, k: nat, suffix: string): Step
    requires k < |env.times|
  {
    var date := env.times[k];
    Step(ofile + "_" + suffix + ".png", TitlePrefix + suffix,
         TicksAfter(InitialSettings(timescale).ticks, k),
         Slice(env.name, date, suffix), SliceOf(u, date, suffix), SliceOf(v, date, suffix), SliceOf(sf, date, suffix))
  }

  /**
   * `main`'s loop: one plot per time step of the envelope, in time order, each named and titled
   * by its date suffix and drawn with the tick list left by the steps before it. A date that does
   * not unpack into three pieces stops the run with ValueError.
   */
  method PlotSteps(env: Field, u: Option<Field>, v: Option<Field>, sf: Option<Field>, timescale: string, ofile: string)
    returns (r: Result<seq<Step>>)
    ensures r.Success? ==>
      && |r.value| == |env.times|
      && forall k :: 0 <= k < |env.times| ==>
           && DateSuffix(env.times[k], timescale).Success?
           && r.value[k] == StepAt(env, u, v, sf, timescale, ofile, k, DateSuffix(env.times[k], timescale).value)
    ensures r.Failure? ==>
      && r.error == ValueError
      && exists k :: 0 <= k < |env.times| && DateSuffix(env.times[k], timescale).Failure?
  {
    var settings := InitialSettings(timescale);
    var tickList := settings.ticks;
    var steps: seq<Step> := [];
    for k := 0 to |env.times|
      invariant |steps| == k
      invariant tickList == TicksAfter(settings.ticks, k)
      invariant forall j :: 0 <= j < k ==>
                  && DateSuffix(env.times[j], timescale).Success?
                  && steps[j] == StepAt(env, u, v, sf, timescale, ofile, j, DateSuffix(env.times[j], timescale).value)
    {
      var date := env.times[k];
      var suffix := DateSuffix(date, timescale);
      if suffix.Failure? {
        return Failure(ValueError);
      }
      var dateAbbrev := suffix.value;
      var title := TitlePrefix + dateAbbrev;
      var outfile := ofile + "_" + dateAbbrev + ".png";
      steps := steps + [Step(outfile, title, tickList, Slice(env.name, date, dateAbbrev),
                             SliceOf(u, date, dateAbbrev), SliceOf(v, date, dateAbbrev), SliceOf(sf, date, dateAbbrev))];
      tickList := DropLast(tickList);
    }
    return Success(steps);
  }

  /** Step `k` is drawn with the first `max(13 - k, 0)` of the initial ticks. */
  lemma StepTicks(timescale: string, k: nat)
    ensures TicksAfter(InitialSettings(timescale).ticks, k) ==
            if k <= 13 then InitialSettings(timescale).ticks[..13 - k] else []
  {
    TicksAfterPrefix(InitialSettings(timescale).ticks, k);
  }

  /** The optional inputs as `extract_data` returns them. */
  datatype Inputs = Inputs(env: Field, uwind: Option<Field>, vwind: Option<Field>, sf: Option<Field>)

  const OptionNames := ["uwind", "vwind", "sf"]

  /** The optional input `name`: read when given on the command line, None otherwise. */
  function Optional(given: map<string, (string, string)>, read: (string, string) -> Field, name: string): (f: Option<Field>)
    ensures f.Some? <==> name in given
  {
    if name in given then Some(read(given[name].0, given[name].1)) else None
  }

  /**
   * `extract_data` as written: the time-axis check after the loop sees only the loop's last
   * name, 'sf'. A streamfunction input whose time axis differs from the envelope's fails the
   * assertion; the wind inputs are never compared.
   */
  function ExtractFor(env: Field, given: map<string, (string, string)>, read: (string, string) -> Field): (r: Result<Inputs>)
    ensures r.Failure? <==> "sf" in given && read(given["sf"].0, given["sf"].1).times != env.times
    ensures r.Failure? ==> r.error == AssertionError
    ensures r.Success? ==> r.value.env == env && (r.value.uwind.Some? <==> "uwind" in given)
                           && (r.value.vwind.Some? <==> "vwind" in given) && (r.value.sf.Some? <==> "sf" in given)
  {
    var sf := Optional(given, read, "sf");
    if sf.Some? && sf.value.times != env.times then Failure(AssertionError)
    else Success(Inputs(env, Optional(given, read, "uwind"), Optional(given, read, "vwind"), sf))
  }

  /**
   * The loop of `extract_data`: each optional input that was given on the command line (a file
   * and a variable name) is read, one that was not becomes None; then the check on the last one.
   */
  method ExtractData(env: Field, given: map<string, (string, string)>, read: (string, string) -> Field)
    returns (r: Result<Inputs>)
    ensures r == ExtractFor(env, given, read)
  {
    var optData: map<string, Option<Field>> := map[];
    for i := 0 to |OptionNames|
      invariant forall j :: 0 <= j < i ==> OptionNames[j] in optData
      invariant forall j :: 0 <= j < i ==> optData[OptionNames[j]] == Optional(given, read, OptionNames[j])
    {
      var opt := OptionNames[i];
      if opt in given {
        optData := optData[opt := Some(read(given[opt].0, given[opt].1))];
      } else {
        optData := optData[opt := None];
      }
    }
    var last := OptionNames[|OptionNames| - 1];
    assert OptionNames[0] == "uwind" && OptionNames[1] == "vwind" && OptionNames[2] == "sf";
    assert optData["uwind"] == optData[OptionNames[0]];
    assert optData["vwind"] == optData[OptionNames[1]];
    assert optData["sf"] == optData[OptionNames[2]];
    if optData[last].Some? && optData[last].value.times != env.times {
      return Failure(AssertionError);
    }
    return Success(Inputs(env, optData["uwind"], optData["vwind"], optData["sf"]));
  }

  /** A zonal-wind input on another time axis than the envelope's gets through the check. */
  lemma WindAxisUnchecked()
    ensures var env := Field("env", ["1981-06-01 0:0:0.0"]);
            var given := map["uwind" := ("u.nc", "ua")];
            var read := (file: string, name: string) => Field(name, []);
            read("u.nc", "ua").times != env.times && ExtractFor(env, given, read).Success?
  {
  }

  /** The check as its message states it: every optional input given must share the envelope's time axis. */
  function ExtractChecked(env: Field, given: map<string, (string, string)>, read: (string, string) -> Field): (r: Result<Inputs>)
    ensures r.Failure? <==> exists name :: name in OptionNames && name in given && read(given[name].0, given[name].1).times != env.times
    ensures r.Failure? ==> r.error == AssertionError
    ensures r.Success? ==>
      && r.value.env == env
      && r.value.uwind == Optional(given, read, "uwind")
      && r.value.vwind == Optional(given, read, "vwind")
      && r.value.sf == Optional(given, read, "sf")
      && (r.value.uwind.Some? ==> r.value.uwind.value.times == env.times)
      && (r.value.vwind.Some? ==> r.value.vwind.value.times == env.times)
      && (r.value.sf.Some? ==> r.value.sf.value.times == env.times)
  {
    var u, v, sf := Optional(given, read, "uwind"), Optional(given, read, "vwind"), Optional(given, read, "sf");
    if (u.Some? && u.value.times != env.times) || (v.Some? && v.value.times != env.times)
       || (sf.Some? && sf.value.times != env.times)
    then Failure(AssertionError)
    else Success(Inputs(env, u, v, sf))
  }

  datatype Axis = Time | Latitude | Longitude

  /** `restore_env`: the restored field keeps a time axis exactly when the input's axis order has one. */
  function AxisList(order: string): (axes: seq<Axis>)
    ensures Time in axes <==> 't' in order
    ensures |axes| >= 2 && axes[|axes| - 2..] == [Latitude, Longitude]
    ensures 't' in order ==> axes[0] == Time
  {
    if 't' in order then [Time, Latitude, Longitude] else [Latitude, Longitude]
  }
}
