/**
 From a planned chart to the SQL text it runs: `planned_axis_chart` in backend/src/ai/dto.rs,
 `axis_chart_content` in backend/src/canvas/service.rs, `series_alias` in backend/src/cell/dto.rs
 and the query builder in backend/src/cell/service.rs.
 */
module ChartQuery {
  import opened Wrappers
  import opened Sequences
  import opened Text

  const MAX_CHART_SERIES := 6
  const MAX_IDENTIFIER_LEN := 128

  type Id = nat

  datatype AggregateFunction = Max | Min | Sum | Count | Avg
  {
    function AsStr(): string
    {
      match this
      case Max => "MAX"
      case Min => "MIN"
      case Sum => "SUM"
      case Count => "COUNT"
      case Avg => "AVG"
    }
  }

  datatype SortOrder = Unsorted | Asc | Desc
  {
    function AsStr(): string
    {
      match this
      case Unsorted => "NONE"
      case Asc => "ASC"
      case Desc => "DESC"
    }
  }

  // ---------- The planned chart ----------

  datatype AiChartSeries = AiChartSeries(column: string, aggregateFunction: AggregateFunction, caption: Option<string>)

  datatype AiAxisChart = AiAxisChart(
    xAxis: string,
    series: seq<AiChartSeries>,
    sortBySeriesColumn: Option<string>,
    sortOrder: Option<SortOrder>)

  datatype PlannedSeries = PlannedSeries(column: string, aggregateFunction: AggregateFunction, caption: Option<string>)

  datatype PlannedAxisChart = PlannedAxisChart(
    xAxis: string,
    series: seq<PlannedSeries>,
    sortBySeriesColumn: Option<string>,
    sortOrder: SortOrder)

  datatype PlanError =
    | MissingAxis | BlankXAxis | NoSeries | SortsByUnknownSeries(column: string)
    | MissingPie | BlankCategory | BlankValue | NegativePrecision

  /** The k-th entry names a column, and no earlier entry names the same one. */
  predicate IsFirst(entries: seq<AiChartSeries>, k: nat)
    requires k < |entries|
  {
    NonBlank(entries[k].column).Some? &&
    forall j :: 0 <= j < k ==> NonBlank(entries[j].column) != NonBlank(entries[k].column)
  }

  function FirstOfEachColumn(entries: seq<AiChartSeries>, n: nat): seq<PlannedSeries>
    requires n <= |entries|
  {
    if n == 0 then []
    else if !IsFirst(entries, n - 1) then FirstOfEachColumn(entries, n - 1)
    else
      var entry := entries[n - 1];
      FirstOfEachColumn(entries, n - 1) +
      [PlannedSeries(NonBlank(entry.column).value, entry.aggregateFunction, NonEmpty(entry.caption))]
  }

  function Truncated<T>(s: seq<T>, limit: nat): seq<T>
  {
    if |s| <= limit then s else s[..limit]
  }

  predicate HasColumn(series: seq<PlannedSeries>, column: string)
  {
    exists i :: 0 <= i < |series| && series[i].column == column
  }

  function PlanAxis(settings: Option<AiAxisChart>): Result<PlannedAxisChart, PlanError>
  {
    if settings.None? then Err(MissingAxis)
    else
      var axis := settings.value;
      var all := FirstOfEachColumn(axis.series, |axis.series|);
      var series := Truncated(all, MAX_CHART_SERIES);
      var sortBy := NonEmpty(axis.sortBySeriesColumn);
      if NonBlank(axis.xAxis).None? then Err(BlankXAxis)
      else if all == [] then Err(NoSeries)
      else if sortBy.Some? && !HasColumn(series, sortBy.value) then Err(SortsByUnknownSeries(sortBy.value))
      else
        Ok(PlannedAxisChart(
             NonBlank(axis.xAxis).value, series, sortBy,
             if axis.sortOrder.Some? then axis.sortOrder.value else Unsorted))
  }

  predicate NamedBy(entries: seq<AiChartSeries>, n: nat, column: string)
    requires n <= |entries|
  {
    exists j :: 0 <= j < n && NonBlank(entries[j].column) == Some(column)
  }

  lemma NamedStep(entries: seq<AiChartSeries>, n: nat, column: string)
    requires n < |entries|
    ensures NamedBy(entries, n + 1, column) <==>
            NamedBy(entries, n, column) || NonBlank(entries[n].column) == Some(column)
  {
    hide NonBlank;
  }

  lemma FirstWhenNotNamed(entries: seq<AiChartSeries>, n: nat)
    requires n < |entries|
    ensures IsFirst(entries, n) <==>
            NonBlank(entries[n].column).Some? && !NamedBy(entries, n, NonBlank(entries[n].column).value)
  {
    hide NonBlank;
  }

  /** The columns seen are those named so far, so a column not yet seen is a first one. */
  ghost predicate Seen(entries: seq<AiChartSeries>, n: nat, seen: set<string>)
    requires n <= |entries|
  {
    forall c :: c in seen <==> NamedBy(entries, n, c)
  }

  lemma SeenStep(entries: seq<AiChartSeries>, n: nat, seen: set<string>)
    requires n < |entries| && Seen(entries, n, seen)
    ensures var column := NonBlank(entries[n].column);
            Seen(entries, n + 1, if column.Some? then seen + {column.value} else seen)
  {
    hide NonBlank, NamedBy;
    forall c
      ensures NamedBy(entries, n + 1, c) <==> NamedBy(entries, n, c) || NonBlank(entries[n].column) == Some(c)
    {
      NamedStep(entries, n, c);
    }
  }

  lemma SeenIs(entries: seq<AiChartSeries>, n: nat, seen: set<string>)
    requires n < |entries| && Seen(entries, n, seen)
    ensures forall c :: c in seen <==> NamedBy(entries, n, c)
  {
  }

  method PlannedSeriesOf(entries: seq<AiChartSeries>) returns (series: seq<PlannedSeries>)
    ensures series == FirstOfEachColumn(entries, |entries|)
  {
    hide NonBlank, NonEmpty;
    series := [];
    var seen: set<string> := {};
    assert Seen(entries, 0, seen);
    for k := 0 to |entries|
      invariant Seen(entries, k, seen)
      invariant series == FirstOfEachColumn(entries, k)
    {
      hide IsFirst, NamedBy, Seen;
      var entry := entries[k];
      SeenIs(entries, k, seen);
      var column := NonBlank(entry.column);
      FirstWhenNotNamed(entries, k);
      SeenStep(entries, k, seen);
      if column.Some? {
        if column.value !in seen {
          series := series + [PlannedSeries(column.value, entry.aggregateFunction, NonEmpty(entry.caption))];
        }
        seen := seen + {column.value};
      }
    }
  }

  method PlannedAxis(settings: Option<AiAxisChart>) returns (r: Result<PlannedAxisChart, PlanError>)
    ensures r == PlanAxis(settings)
  {
    hide NonBlank, NonEmpty;
    if settings.None? {
      return Err(MissingAxis);
    }
    var axis := settings.value;
    var xAxis := NonBlank(axis.xAxis);
    if xAxis.None? {
      return Err(BlankXAxis);
    }
    var series := PlannedSeriesOf(axis.series);
    if series == [] {
      return Err(NoSeries);
    }
    series := Truncated(series, MAX_CHART_SERIES);
    var sortBy := NonEmpty(axis.sortBySeriesColumn);
    if sortBy.Some? && !HasColumn(series, sortBy.value) {
      return Err(SortsByUnknownSeries(sortBy.value));
    }
    return Ok(PlannedAxisChart(
                xAxis.value, series, sortBy,
                if axis.sortOrder.Some? then axis.sortOrder.value else Unsorted));
  }

  predicate DistinctColumns(series: seq<PlannedSeries>)
  {
    forall i, j :: 0 <= i < j < |series| ==> series[i].column != series[j].column
  }

  ghost predicate SameColumns(series: seq<PlannedSeries>, entries: seq<AiChartSeries>, n: nat)
    requires n <= |entries|
  {
    forall c :: HasColumn(series, c) <==> NamedBy(entries, n, c)
  }

  /** The series are the distinct non-blank columns, each once. */
  lemma {:induction false} FirstsAreDistinct(entries: seq<AiChartSeries>, n: nat)
    requires n <= |entries|
    ensures DistinctColumns(FirstOfEachColumn(entries, n))
    ensures SameColumns(FirstOfEachColumn(entries, n), entries, n)
  {
    if n > 0 {
      FirstsAreDistinct(entries, n - 1);
      FirstsStep(entries, n - 1, FirstOfEachColumn(entries, n - 1));
    }
  }

  lemma FirstsStep(entries: seq<AiChartSeries>, n: nat, before: seq<PlannedSeries>)
    requires n < |entries| && before == FirstOfEachColumn(entries, n)
    requires DistinctColumns(before) && SameColumns(before, entries, n)
    ensures DistinctColumns(FirstOfEachColumn(entries, n + 1)) &&
            SameColumns(FirstOfEachColumn(entries, n + 1), entries, n + 1)
  {
    hide NonBlank, NonEmpty, IsFirst, NamedBy, DistinctColumns, HasColumn;
    var column := NonBlank(entries[n].column);
    FirstWhenNotNamed(entries, n);
    forall c
      ensures NamedBy(entries, n + 1, c) <==> NamedBy(entries, n, c) || column == Some(c)
    {
      NamedStep(entries, n, c);
    }
    if IsFirst(entries, n) {
      AddColumn(before, PlannedSeries(column.value, entries[n].aggregateFunction, NonEmpty(entries[n].caption)));
    }
  }

  predicate AllNamed(series: seq<PlannedSeries>)
  {
    forall i :: 0 <= i < |series| ==> series[i].column != ""
  }

  lemma {:induction false} FirstsAreNamed(entries: seq<AiChartSeries>, n: nat)
    requires n <= |entries|
    ensures AllNamed(FirstOfEachColumn(entries, n))
  {
    if n > 0 {
      var before := FirstOfEachColumn(entries, n - 1);
      FirstsAreNamed(entries, n - 1);
      if IsFirst(entries, n - 1) {
        var entry := entries[n - 1];
        AddNamed(before, PlannedSeries(NonBlank(entry.column).value, entry.aggregateFunction, NonEmpty(entry.caption)));
      }
      hide NonBlank, NonEmpty, IsFirst, AllNamed;
    }
  }

  lemma AddNamed(series: seq<PlannedSeries>, added: PlannedSeries)
    requires AllNamed(series) && added.column != ""
    ensures AllNamed(series + [added])
  {
  }

  lemma AddColumn(series: seq<PlannedSeries>, added: PlannedSeries)
    ensures forall c :: HasColumn(series + [added], c) <==> HasColumn(series, c) || c == added.column
    ensures DistinctColumns(series) && !HasColumn(series, added.column) ==> DistinctColumns(series + [added])
  {
    var all := series + [added];
    forall c
      ensures HasColumn(all, c) <==> HasColumn(series, c) || c == added.column
    {
      assert all[|series|] == added;
      if HasColumn(series, c) {
        var i :| 0 <= i < |series| && series[i].column == c;
        assert all[i].column == c;
      }
    }
  }

  /** An accepted chart has 1 to 6 distinct non-blank columns, and sorts by one of them if asked to. */
  lemma PlannedChartIsSound(settings: Option<AiAxisChart>)
    requires PlanAxis(settings).Ok?
    ensures Sound(PlanAxis(settings).value)
  {
    hide NonBlank, NonEmpty, FirstOfEachColumn, DistinctColumns, AllNamed, HasColumn;
    var entries := settings.value.series;
    FirstsAreDistinct(entries, |entries|);
    FirstsAreNamed(entries, |entries|);
    TruncatedKeeps(FirstOfEachColumn(entries, |entries|), MAX_CHART_SERIES);
  }

  lemma TruncatedKeeps(series: seq<PlannedSeries>, limit: nat)
    requires DistinctColumns(series) && AllNamed(series)
    ensures DistinctColumns(Truncated(series, limit)) && AllNamed(Truncated(series, limit))
    ensures limit > 0 && series != [] ==> 1 <= |Truncated(series, limit)| <= limit
  {
  }

  predicate Sound(chart: PlannedAxisChart)
  {
    1 <= |chart.series| <= MAX_CHART_SERIES && DistinctColumns(chart.series) &&
    AllNamed(chart.series) &&
    (chart.sortBySeriesColumn.Some? ==> HasColumn(chart.series, chart.sortBySeriesColumn.value))
  }

  // ---------- What an accepted chart says ----------

  ghost predicate PlansSeries(entry: AiChartSeries, planned: PlannedSeries)
  {
    IsText(entry.column, Some(planned.column)) && planned.aggregateFunction == entry.aggregateFunction &&
    IsTextOf(entry.caption, planned.caption)
  }

  /** Positions `at` are, in order, all entries that are the first to name their column. */
  ghost predicate FirstsAt(entries: seq<AiChartSeries>, n: nat, series: seq<PlannedSeries>, at: seq<nat>)
    requires n <= |entries|
  {
    && |at| == |series|
    && (forall m :: 0 <= m < |at| ==>
          at[m] < n && IsFirst(entries, at[m]) && PlansSeries(entries[at[m]], series[m]))
    && (forall k, m :: 0 <= k < m < |at| ==> at[k] < at[m])
    && forall j :: 0 <= j < n && IsFirst(entries, j) ==> j in at
  }

  lemma {:induction false} FirstsHavePositions(entries: seq<AiChartSeries>, n: nat) returns (at: seq<nat>)
    requires n <= |entries|
    ensures FirstsAt(entries, n, FirstOfEachColumn(entries, n), at)
  {
    hide FirstsAt, PlansSeries, IsFirst, IsText, IsTextOf, NonBlank, NonEmpty, NamedBy;
    if n == 0 {
      at := [];
      NoFirsts(entries);
    } else {
      at := FirstsHavePositions(entries, n - 1);
      FirstWhenNotNamed(entries, n - 1);
      var before := FirstOfEachColumn(entries, n - 1);
      if IsFirst(entries, n - 1) {
        var entry := entries[n - 1];
        var planned := PlannedSeries(NonBlank(entry.column).value, entry.aggregateFunction, NonEmpty(entry.caption));
        NonBlankIs(entry.column);
        NonEmptyIs(entry.caption);
        IsPlanned(entry, planned);
        MoreFirsts(entries, n - 1, before, at, planned);
        at := at + [n - 1];
      } else {
        NoMoreFirsts(entries, n - 1, before, at);
      }
    }
  }

  lemma NoFirsts(entries: seq<AiChartSeries>)
    ensures FirstsAt(entries, 0, [], [])
  {
  }

  lemma IsPlanned(entry: AiChartSeries, planned: PlannedSeries)
    requires IsText(entry.column, Some(planned.column)) && planned.aggregateFunction == entry.aggregateFunction
    requires IsTextOf(entry.caption, planned.caption)
    ensures PlansSeries(entry, planned)
  {
  }

  lemma MoreFirsts(
    entries: seq<AiChartSeries>, n: nat, series: seq<PlannedSeries>, at: seq<nat>, planned: PlannedSeries)
    requires n < |entries| && FirstsAt(entries, n, series, at)
    requires IsFirst(entries, n) && PlansSeries(entries[n], planned)
    ensures FirstsAt(entries, n + 1, series + [planned], at + [n])
  {
    hide IsFirst, PlansSeries;
    var after := at + [n];
    assert after[|at|] == n;
    assert forall j :: j in at ==> j in after;
  }

  lemma NoMoreFirsts(entries: seq<AiChartSeries>, n: nat, series: seq<PlannedSeries>, at: seq<nat>)
    requires n < |entries| && FirstsAt(entries, n, series, at) && !IsFirst(entries, n)
    ensures FirstsAt(entries, n + 1, series, at)
  {
    hide IsFirst, PlansSeries;
  }

  /**
   The chart says what the settings say, names without whitespace at their ends: of the series `all`,
   one for each column at the first entry to name it, it keeps the first 6.
   */
  ghost predicate SaysAsSettings(
    axis: AiAxisChart, chart: PlannedAxisChart, all: seq<PlannedSeries>, at: seq<nat>)
  {
    && IsText(axis.xAxis, Some(chart.xAxis))
    && FirstsAt(axis.series, |axis.series|, all, at)
    && chart.series == (if |all| <= MAX_CHART_SERIES then all else all[..MAX_CHART_SERIES])
    && IsTextOf(axis.sortBySeriesColumn, chart.sortBySeriesColumn)
    && chart.sortOrder == (if axis.sortOrder.Some? then axis.sortOrder.value else Unsorted)
  }

  ghost predicate AxisAsAsked(axis: AiAxisChart, chart: PlannedAxisChart)
  {
    exists all, at :: SaysAsSettings(axis, chart, all, at)
  }

  /** An accepted chart says what the answer's settings say. */
  lemma AcceptedAxis(settings: Option<AiAxisChart>)
    requires PlanAxis(settings).Ok?
    ensures settings.Some? && AxisAsAsked(settings.value, PlanAxis(settings).value)
  {
    hide FirstOfEachColumn, FirstsAt, IsText, IsTextOf, NonBlank, NonEmpty, HasColumn;
    var axis := settings.value;
    NonBlankIs(axis.xAxis);
    NonEmptyIs(axis.sortBySeriesColumn);
    var at := FirstsHavePositions(axis.series, |axis.series|);
    assert SaysAsSettings(axis, PlanAxis(settings).value, FirstOfEachColumn(axis.series, |axis.series|), at);
  }

  // ---------- Output names ----------

  function SeriesAlias(column: string, f: AggregateFunction): string
  {
    column + "_" + AsciiLower(f.AsStr())
  }

  lemma SuffixHasNoUnderscore(f: AggregateFunction)
    ensures '_' !in AsciiLower(f.AsStr())
  {
    assert f.AsStr() in ["MAX", "MIN", "SUM", "COUNT", "AVG"];
  }

  lemma SuffixTellsFunction(f: AggregateFunction, g: AggregateFunction)
    requires AsciiLower(f.AsStr()) == AsciiLower(g.AsStr())
    ensures f == g
  {
    assert AsciiLower(f.AsStr())[0] == AsciiLower(g.AsStr())[0];
    assert AsciiLower(f.AsStr())[1] == AsciiLower(g.AsStr())[1];
  }

  lemma ShorterColumn(c: string, f: AggregateFunction, d: string, g: AggregateFunction)
    requires |c| < |d|
    ensures SeriesAlias(c, f) != SeriesAlias(d, g)
  {
    SuffixHasNoUnderscore(f);
    assert SeriesAlias(d, g)[|d|] == '_';
    if |d| < |SeriesAlias(c, f)| {
      assert SeriesAlias(c, f)[|d|] == AsciiLower(f.AsStr())[|d| - |c| - 1];
    }
  }

  /** Two series get the same output name exactly when they are the same column and function. */
  lemma AliasIsInjective(c: string, f: AggregateFunction, d: string, g: AggregateFunction)
    ensures SeriesAlias(c, f) == SeriesAlias(d, g) <==> c == d && f == g
  {
    if SeriesAlias(c, f) == SeriesAlias(d, g) {
      if |c| < |d| {
        ShorterColumn(c, f, d, g);
      }
      if |d| < |c| {
        ShorterColumn(d, g, c, f);
      }
      assert c == SeriesAlias(c, f)[..|c|] && d == SeriesAlias(d, g)[..|c|];
      assert AsciiLower(f.AsStr()) == SeriesAlias(c, f)[|c| + 1..];
      assert AsciiLower(g.AsStr()) == SeriesAlias(d, g)[|c| + 1..];
      SuffixTellsFunction(f, g);
    }
  }

  /** The output name of a series: its column and its function in lower case. */
  lemma SeriesAliasIs(column: string)
    ensures SeriesAlias(column, Max) == column + "_max" && SeriesAlias(column, Min) == column + "_min"
    ensures SeriesAlias(column, Sum) == column + "_sum" && SeriesAlias(column, Avg) == column + "_avg"
    ensures SeriesAlias(column, Count) == column + "_count"
  {
    LowerIs("MAX", "max");
    LowerIs("MIN", "min");
    LowerIs("SUM", "sum");
    LowerIs("AVG", "avg");
    LowerIs("COUNT", "count");
    hide AsciiLower;
    Assoc(column, "_", "max");
    Assoc(column, "_", "min");
    Assoc(column, "_", "sum");
    Assoc(column, "_", "avg");
    Assoc(column, "_", "count");
  }

  lemma LowerIs(upper: string, lower: string)
    requires |upper| == |lower|
    requires forall i :: 0 <= i < |upper| ==> 'A' <= upper[i] <= 'Z' && lower[i] as int == upper[i] as int + 32
    ensures AsciiLower(upper) == lower
  {
    LowerLetters(upper);
    hide AsciiLower;
    var r := AsciiLower(upper);
    assert forall i :: 0 <= i < |upper| ==> r[i] as int == lower[i] as int;
  }

  datatype ChartSeries = ChartSeries(
    column: string, aggregateFunction: Option<AggregateFunction>, caption: Option<string>, alias: string,
    colorIndex: Option<nat>)

  /** A stored axis chart; a user may have edited any of it. */
  datatype AxisChartContent = AxisChartContent(
    cellId: Id,
    xAxis: string,
    xAxisAlias: string,
    series: seq<ChartSeries>,
    yAxisSortBy: Option<string>,
    yAxisSortOrder: Option<SortOrder>)

  function ContentSeries(series: seq<PlannedSeries>): (r: seq<ChartSeries>)
    ensures |r| == |series|
  {
    seq(|series|, i requires 0 <= i < |series| =>
      ChartSeries(series[i].column, Some(series[i].aggregateFunction), series[i].caption,
                  SeriesAlias(series[i].column, series[i].aggregateFunction), Some(i)))
  }

  /** The alias of the first series with this column. */
  function AliasOf(series: seq<ChartSeries>, column: string): Option<string>
  {
    if series == [] then None
    else if series[0].column == column then Some(series[0].alias)
    else AliasOf(series[1..], column)
  }

  function AxisContent(cellId: Id, chart: PlannedAxisChart): AxisChartContent
  {
    var series := ContentSeries(chart.series);
    AxisChartContent(
      cellId, chart.xAxis, chart.xAxis, series,
      if chart.sortBySeriesColumn.Some? then AliasOf(series, chart.sortBySeriesColumn.value) else None,
      Some(chart.sortOrder))
  }

  // ---------- The query ----------

  datatype QueryError =
    | MissingChartSetting(setting: string) | TooManySeries(count: nat)
    | DuplicateSeriesAlias(alias: string) | InvalidIdentifier(value: string)

  function Utf8Length(s: string): nat
  {
    if s == "" then 0
    else Utf8Length(s[..|s| - 1]) +
         var c := s[|s| - 1];
         if c < '\U{80}' then 1 else if c < '\U{800}' then 2 else if c < '\U{10000}' then 3 else 4
  }

  predicate IsControl(c: char)
  {
    c < ' ' || '\U{7F}' <= c <= '\U{9F}'
  }

  predicate ValidIdentifier(value: string)
  {
    value != "" && Utf8Length(value) <= MAX_IDENTIFIER_LEN &&
    forall i :: 0 <= i < |value| ==> value[i] != '"' && !IsControl(value[i])
  }

  predicate PlainAscii(value: string)
  {
    forall i :: 0 <= i < |value| ==> ' ' <= value[i] < '\U{7F}' && value[i] != '"'
  }

  lemma {:induction false} AsciiLength(value: string)
    requires PlainAscii(value)
    ensures Utf8Length(value) == |value|
  {
    if value != "" {
      AsciiLength(value[..|value| - 1]);
    }
  }

  /** Of printable ASCII without quotes, 1 to 128 characters are an identifier; elsewhere bytes count. */
  lemma AsciiIdentifiers(value: string)
    requires PlainAscii(value)
    ensures ValidIdentifier(value) <==> 1 <= |value| <= 128
  {
    AsciiLength(value);
    hide Utf8Length;
  }

  predicate Distinct(names: seq<string>)
  {
    forall i, j :: 0 <= i < j < |names| ==> names[i] != names[j]
  }

  function Aliases(series: seq<ChartSeries>): (r: seq<string>)
    ensures |r| == |series|
  {
    seq(|series|, i requires 0 <= i < |series| => series[i].alias)
  }

  /** The first name that repeats an earlier one. */
  function FirstRepeat(names: seq<string>): (r: Option<string>)
    ensures r.None? <==> Distinct(names)
  {
    if names == [] then None
    else
      var n := |names| - 1;
      var earlier := FirstRepeat(names[..n]);
      assert names == names[..n] + [names[n]];
      if earlier.Some? then earlier
      else if names[n] in names[..n] then Some(names[n])
      else None
  }

  /** It is the first: what stands before it has no repeat. */
  lemma {:induction false} FirstRepeatIsFirst(names: seq<string>) returns (j: nat)
    requires FirstRepeat(names).Some?
    ensures j < |names| && names[j] == FirstRepeat(names).value
    ensures names[j] in names[..j] && Distinct(names[..j])
  {
    j := |names| - 1;
    if FirstRepeat(names[..j]).Some? {
      var n := j;
      j := FirstRepeatIsFirst(names[..n]);
      assert names[..n][..j] == names[..j];
    }
  }

  function OutputNames(xAlias: string, series: seq<ChartSeries>): Result<seq<string>, QueryError>
  {
    var names := [xAlias] + Aliases(series);
    if series == [] then Err(MissingChartSetting("series"))
    else if |series| > MAX_CHART_SERIES then Err(TooManySeries(|series|))
    else if FirstRepeat(names).Some? then Err(DuplicateSeriesAlias(FirstRepeat(names).value))
    else Ok(names)
  }

  function ToSet(names: seq<string>): set<string>
  {
    set n | n in names
  }

  method ValidatedOutputNames(xAlias: string, series: seq<ChartSeries>) returns (r: Result<set<string>, QueryError>)
    ensures var names := OutputNames(xAlias, series);
            if names.Ok? then r == Ok(ToSet(names.value)) else r == Err(names.error)
  {
    if series == [] {
      return Err(MissingChartSetting("series"));
    }
    if |series| > MAX_CHART_SERIES {
      return Err(TooManySeries(|series|));
    }
    ghost var all := [xAlias] + Aliases(series);
    var names := {xAlias};
    assert all[..1] == [xAlias];
    for k := 0 to |series|
      invariant names == ToSet(all[..k + 1])
      invariant FirstRepeat(all[..k + 1]).None?
    {
      assert all[k + 1] == series[k].alias;
      RepeatStep(all, k + 1);
      if series[k].alias in names {
        RepeatStays(all, k + 2);
        return Err(DuplicateSeriesAlias(series[k].alias));
      }
      names := names + {series[k].alias};
      assert all[..k + 2] == all[..k + 1] + [all[k + 1]];
    }
    assert all[..|series| + 1] == all;
    return Ok(names);
  }

  lemma RepeatStep(names: seq<string>, n: nat)
    requires n < |names|
    ensures FirstRepeat(names[..n]).None? ==>
              FirstRepeat(names[..n + 1]) == if names[n] in ToSet(names[..n]) then Some(names[n]) else None
  {
    assert names[..n + 1][..n] == names[..n];
  }

  lemma {:induction false} RepeatStays(names: seq<string>, n: nat)
    requires n <= |names| && FirstRepeat(names[..n]).Some?
    ensures FirstRepeat(names) == FirstRepeat(names[..n])
    decreases |names|
  {
    if n < |names| {
      var m := |names| - 1;
      assert names[..m][..n] == names[..n];
      RepeatStays(names[..m], n);
    } else {
      assert names[..n] == names;
    }
  }

  function Quoted(name: string): string
  {
    "\"" + name + "\""
  }

  function Projection(entry: ChartSeries): string
    requires entry.aggregateFunction.Some?
  {
    entry.aggregateFunction.value.AsStr() + "(" + Quoted(entry.column) + ") AS " + Quoted(entry.alias)
  }

  /** What the builder asks of one series, in the order it asks. */
  function SeriesError(entry: ChartSeries): Option<QueryError>
  {
    if entry.aggregateFunction.None? then Some(MissingChartSetting("aggregate function"))
    else if !ValidIdentifier(entry.column) then Some(InvalidIdentifier(entry.column))
    else if !ValidIdentifier(entry.alias) then Some(InvalidIdentifier(entry.alias))
    else None
  }

  function FirstSeriesError(series: seq<ChartSeries>): (r: Option<QueryError>)
    ensures r.None? <==> forall i :: 0 <= i < |series| ==> SeriesError(series[i]).None?
  {
    if series == [] then None
    else if SeriesError(series[0]).Some? then SeriesError(series[0])
    else FirstSeriesError(series[1..])
  }

  predicate AllAggregated(series: seq<ChartSeries>)
  {
    forall i :: 0 <= i < |series| ==> series[i].aggregateFunction.Some?
  }

  function Projections(series: seq<ChartSeries>): (r: seq<string>)
    requires AllAggregated(series)
    ensures |r| == |series|
  {
    seq(|series|, i requires 0 <= i < |series| => Projection(series[i]))
  }

  function Tail(xAxis: string, sortBy: string, order: SortOrder): string
  {
    Quoted(xAxis) + if order == Unsorted then "" else " ORDER BY " + Quoted(sortBy) + " " + order.AsStr()
  }

  function SelectText(source: string, xAxis: string, xAlias: string, projections: seq<string>, sortBy: string,
      order: SortOrder): string
  {
    "SELECT " + (Quoted(xAxis) + (" AS " + (Quoted(xAlias) + (", " + (Join(projections, ", ") +
    (" FROM (" + source + ") AS subquery GROUP BY " + Tail(xAxis, sortBy, order)))))))
  }

  function AggregatedQuery(
    source: string, xAxis: string, xAlias: string, series: seq<ChartSeries>, sortBy: string, order: SortOrder):
    Result<string, QueryError>
  {
    if !ValidIdentifier(xAxis) then Err(InvalidIdentifier(xAxis))
    else if !ValidIdentifier(xAlias) then Err(InvalidIdentifier(xAlias))
    else if FirstSeriesError(series).Some? then Err(FirstSeriesError(series).value)
    else Ok(SelectText(source, xAxis, xAlias, Projections(series), sortBy, order))
  }

  lemma NoProjections(series: seq<ChartSeries>)
    ensures AllAggregated(series[..0]) && Projections(series[..0]) == []
    ensures series[0..] == series && FirstSeriesError(series[|series|..]).None?
  {
  }

  lemma ErrorStep(series: seq<ChartSeries>, k: nat)
    requires k < |series|
    ensures FirstSeriesError(series[k..]) ==
            if SeriesError(series[k]).Some? then SeriesError(series[k]) else FirstSeriesError(series[k + 1..])
  {
    assert series[k..][0] == series[k] && series[k..][1..] == series[k + 1..];
  }

  lemma ProjectionStep(series: seq<ChartSeries>, k: nat)
    requires k < |series| && series[k].aggregateFunction.Some? && AllAggregated(series[..k])
    ensures AllAggregated(series[..k + 1]) &&
            Projections(series[..k + 1]) == Projections(series[..k]) + [Projection(series[k])]
  {
    hide Projection;
  }

  method BuildAggregatedQuery(
    source: string, xAxis: string, xAlias: string, series: seq<ChartSeries>, sortBy: string, order: SortOrder)
    returns (r: Result<string, QueryError>)
    ensures r == AggregatedQuery(source, xAxis, xAlias, series, sortBy, order)
  {
    hide ValidIdentifier, SelectText, Projection, FirstSeriesError, Projections, AllAggregated;
    if !ValidIdentifier(xAxis) {
      return Err(InvalidIdentifier(xAxis));
    }
    if !ValidIdentifier(xAlias) {
      return Err(InvalidIdentifier(xAlias));
    }
    var projections: seq<string> := [];
    NoProjections(series);
    for k := 0 to |series|
      invariant AllAggregated(series[..k]) && projections == Projections(series[..k])
      invariant FirstSeriesError(series) == FirstSeriesError(series[k..])
    {
      var entry := series[k];
      ErrorStep(series, k);
      if entry.aggregateFunction.None? {
        return Err(MissingChartSetting("aggregate function"));
      }
      if !ValidIdentifier(entry.column) {
        return Err(InvalidIdentifier(entry.column));
      }
      if !ValidIdentifier(entry.alias) {
        return Err(InvalidIdentifier(entry.alias));
      }
      ProjectionStep(series, k);
      projections := projections + [Projection(entry)];
    }
    assert series[..|series|] == series;
    return Ok(SelectText(source, xAxis, xAlias, projections, sortBy, order));
  }

  function SortBy(content: AxisChartContent, names: seq<string>): string
    requires content.series != []
  {
    if content.yAxisSortBy.Some? && content.yAxisSortBy.value in names then content.yAxisSortBy.value
    else content.series[0].alias
  }

  function AxisChartQuery(content: AxisChartContent, source: string): Result<string, QueryError>
  {
    var names := OutputNames(content.xAxisAlias, content.series);
    if names.Err? then Err(names.error)
    else if content.yAxisSortOrder.None? then Err(MissingChartSetting("y-axis sort order"))
    else
      AggregatedQuery(source, content.xAxis, content.xAxisAlias, content.series,
                      SortBy(content, names.value), content.yAxisSortOrder.value)
  }

  method BuildAxisChartQuery(content: AxisChartContent, source: string) returns (r: Result<string, QueryError>)
    ensures r == AxisChartQuery(content, source)
  {
    hide AggregatedQuery, FirstRepeat;
    var names := ValidatedOutputNames(content.xAxisAlias, content.series);
    if names.Err? {
      return Err(names.error);
    }
    if content.yAxisSortOrder.None? {
      return Err(MissingChartSetting("y-axis sort order"));
    }
    var sortBy := content.series[0].alias;
    if content.yAxisSortBy.Some? && content.yAxisSortBy.value in names.value {
      sortBy := content.yAxisSortBy.value;
    }
    r := BuildAggregatedQuery(source, content.xAxis, content.xAxisAlias, content.series, sortBy,
      content.yAxisSortOrder.value);
  }

  // ---------- Every accepted plan chart yields a query ----------

  lemma PlannedAliasesAreDistinct(chart: PlannedAxisChart)
    requires Sound(chart)
    ensures Distinct(Aliases(ContentSeries(chart.series)))
  {
    hide SeriesAlias;
    var aliases := Aliases(ContentSeries(chart.series));
    forall i, j | 0 <= i < j < |aliases|
      ensures aliases[i] != aliases[j]
    {
      AliasIsInjective(chart.series[i].column, chart.series[i].aggregateFunction,
                       chart.series[j].column, chart.series[j].aggregateFunction);
    }
  }

  lemma Utf8Prefix(s: string, t: string)
    ensures Utf8Length(s) <= Utf8Length(s + t)
  {
    if t == "" {
      Unit(s);
    } else {
      Utf8Prefix(s, t[..|t| - 1]);
      assert (s + t)[..|s + t| - 1] == s + t[..|t| - 1];
    }
  }

  /** A valid output name has a valid column. */
  lemma AliasValidatesColumn(column: string, f: AggregateFunction)
    requires column != "" && ValidIdentifier(SeriesAlias(column, f))
    ensures ValidIdentifier(column)
  {
    var alias := SeriesAlias(column, f);
    Utf8Prefix(column, "_" + AsciiLower(f.AsStr()));
    Assoc(column, "_", AsciiLower(f.AsStr()));
    forall i | 0 <= i < |column|
      ensures column[i] != '"' && !IsControl(column[i])
    {
      assert alias[i] == column[i];
    }
  }

  predicate AllValid(names: seq<string>)
  {
    forall i :: 0 <= i < |names| ==> ValidIdentifier(names[i])
  }

  lemma PlannedSeriesAreUsable(series: seq<PlannedSeries>)
    requires AllNamed(series)
    ensures FirstSeriesError(ContentSeries(series)).None? <==> AllValid(Aliases(ContentSeries(series)))
  {
    hide ValidIdentifier, SeriesAlias;
    var content := ContentSeries(series);
    forall i | 0 <= i < |series|
      ensures SeriesError(content[i]).None? <==> ValidIdentifier(Aliases(content)[i])
    {
      if ValidIdentifier(content[i].alias) {
        AliasValidatesColumn(series[i].column, series[i].aggregateFunction);
      }
    }
  }

  /**
   The content of a sound chart builds exactly when the x-axis and every output name are valid
   identifiers and the x-axis is not itself an output name.
   */
  lemma SoundChartBuilds(chart: PlannedAxisChart, cellId: Id, source: string)
    requires Sound(chart)
    ensures var aliases := Aliases(ContentSeries(chart.series));
            AxisChartQuery(AxisContent(cellId, chart), source).Ok? <==>
            ValidIdentifier(chart.xAxis) && AllValid(aliases) && chart.xAxis !in aliases
  {
    hide ValidIdentifier, SelectText, Projections, ContentSeries;
    var content := AxisContent(cellId, chart);
    var aliases := Aliases(content.series);
    PlannedAliasesAreDistinct(chart);
    PlannedSeriesAreUsable(chart.series);
    DistinctWithHead(chart.xAxis, aliases);
  }

  lemma DistinctWithHead(x: string, names: seq<string>)
    requires Distinct(names)
    ensures Distinct([x] + names) <==> x !in names
  {
    var all := [x] + names;
    if x in names {
      var i :| 0 <= i < |names| && names[i] == x;
      assert all[0] == all[i + 1];
    } else {
      forall i, j | 0 <= i < j < |all|
        ensures all[i] != all[j]
      {
        assert i > 0 ==> all[i] == names[i - 1];
        assert all[j] == names[j - 1];
      }
    }
  }

  lemma {:induction false} AliasOfColumn(series: seq<ChartSeries>, i: nat)
    requires i < |series| && forall j :: 0 <= j < i ==> series[j].column != series[i].column
    ensures AliasOf(series, series[i].column) == Some(series[i].alias)
    decreases i
  {
    if i > 0 {
      AliasOfColumn(series[1..], i - 1);
    }
  }

  /**
   A requested sort column of an accepted chart maps to its own output name, never to the
   fallback; without one the chart sorts by its first series.
   */
  lemma SortsByRequestedColumn(chart: PlannedAxisChart, cellId: Id, i: nat)
    requires Sound(chart) && i < |chart.series|
    requires chart.sortBySeriesColumn ==
             if i == 0 && chart.sortBySeriesColumn.None? then None else Some(chart.series[i].column)
    requires OutputNames(chart.xAxis, ContentSeries(chart.series)).Ok?
    ensures var content := AxisContent(cellId, chart);
            SortBy(content, OutputNames(chart.xAxis, content.series).value) ==
            SeriesAlias(chart.series[i].column, chart.series[i].aggregateFunction)
  {
    hide SeriesAlias, FirstRepeat;
    var content := AxisContent(cellId, chart);
    assert content.series[i].alias == SeriesAlias(chart.series[i].column, chart.series[i].aggregateFunction);
    AliasOfColumn(content.series, i);
    var names := OutputNames(chart.xAxis, content.series).value;
    assert names[i + 1] == content.series[i].alias;
  }

  // ---------- Reading the text back ----------

  datatype SeriesRead = SeriesRead(aggregateFunction: AggregateFunction, column: string, alias: string)

  /** Everything a generated query says besides its source query. */
  datatype QueryRead = QueryRead(xAxis: string, xAlias: string, series: seq<SeriesRead>,
      sort: Option<(string, SortOrder)>)

  function Expect(text: string, expected: string): Option<string>
  {
    if expected <= text then Some(text[|expected|..]) else None
  }

  lemma ExpectReads(expected: string, rest: string)
    ensures Expect(expected + rest, expected) == Some(rest)
  {
  }

  /**
   The rest of a delimited identifier after its opening quote, section 5.2 of ISO/IEC 9075-2:
   a doubled quote stands for one quote, a single one ends the identifier.
   */
  function ReadBody(text: string): Option<(string, string)>
  {
    if text == "" then None
    else if text[0] != '"' then
      match ReadBody(text[1..])
      case None => None
      case Some((body, rest)) => Some(([text[0]] + body, rest))
    else if |text| > 1 && text[1] == '"' then
      match ReadBody(text[2..])
      case None => None
      case Some((body, rest)) => Some((['"'] + body, rest))
    else Some(("", text[1..]))
  }

  function ReadIdentifier(text: string): Option<(string, string)>
  {
    if text != "" && text[0] == '"' then ReadBody(text[1..]) else None
  }

  predicate NotQuote(rest: string)
  {
    rest != "" ==> rest[0] != '"'
  }

  lemma {:induction false} BodyReads(name: string, rest: string)
    requires '"' !in name && NotQuote(rest)
    ensures ReadBody(name + ("\"" + rest)) == Some((name, rest))
  {
    var text := name + ("\"" + rest);
    if name == "" {
      assert text == "\"" + rest;
      Cons('"', rest);
    } else {
      BodyReads(name[1..], rest);
      assert text[0] == name[0] && text[1..] == name[1..] + ("\"" + rest);
      assert [name[0]] + name[1..] == name;
    }
  }

  lemma IdentifierReads(name: string, rest: string)
    requires ValidIdentifier(name) && NotQuote(rest)
    ensures ReadIdentifier(Quoted(name) + rest) == Some((name, rest))
  {
    BodyReads(name, rest);
    var text := Quoted(name) + rest;
    assert text[0] == '"' && text[1..] == name + ("\"" + rest);
  }

  function ReadAggregate(text: string): Option<(AggregateFunction, string)>
  {
    if "MAX(" <= text then Some((Max, text[4..]))
    else if "MIN(" <= text then Some((Min, text[4..]))
    else if "SUM(" <= text then Some((Sum, text[4..]))
    else if "AVG(" <= text then Some((Avg, text[4..]))
    else if "COUNT(" <= text then Some((Count, text[6..]))
    else None
  }

  lemma AggregateReads(f: AggregateFunction, rest: string)
    ensures ReadAggregate(f.AsStr() + ("(" + rest)) == Some((f, rest))
  {
    var text := f.AsStr() + ("(" + rest);
    assert text == f.AsStr() + "(" + rest;
    assert text[0] == f.AsStr()[0] && text[1] == f.AsStr()[1];
    assert text[|f.AsStr()| + 1..] == rest;
    assert (f.AsStr() + "(") <= text;
  }

  function ReadProjection(text: string): Option<(SeriesRead, string)>
  {
    match ReadAggregate(text)
    case None => None
    case Some((f, text)) =>
      match ReadIdentifier(text)
      case None => None
      case Some((column, text)) =>
        match Expect(text, ") AS ")
        case None => None
        case Some(text) =>
          match ReadIdentifier(text)
          case None => None
          case Some((alias, text)) => Some((SeriesRead(f, column, alias), text))
  }

  predicate Usable(entry: ChartSeries)
  {
    entry.aggregateFunction.Some? && ValidIdentifier(entry.column) && ValidIdentifier(entry.alias)
  }

  function ToRead(entry: ChartSeries): SeriesRead
    requires entry.aggregateFunction.Some?
  {
    SeriesRead(entry.aggregateFunction.value, entry.column, entry.alias)
  }

  lemma ProjectionReads(entry: ChartSeries, rest: string)
    requires Usable(entry) && NotQuote(rest)
    ensures ReadProjection(Projection(entry) + rest) == Some((ToRead(entry), rest))
  {
    hide ReadAggregate, ReadIdentifier, ValidIdentifier, Expect;
    var f := entry.aggregateFunction.value;
    var afterColumn := ") AS " + (Quoted(entry.alias) + rest);
    var afterFunction := Quoted(entry.column) + afterColumn;
    ProjectionText(f.AsStr(), Quoted(entry.column), Quoted(entry.alias), rest);
    AggregateReads(f, afterFunction);
    IdentifierReads(entry.column, afterColumn);
    ExpectReads(") AS ", Quoted(entry.alias) + rest);
    IdentifierReads(entry.alias, rest);
  }

  lemma ProjectionText(f: string, column: string, alias: string, rest: string)
    ensures f + "(" + column + ") AS " + alias + rest == f + ("(" + (column + (") AS " + (alias + rest))))
  {
  }

  function ReadProjections(text: string, fuel: nat): Option<(seq<SeriesRead>, string)>
    decreases fuel
  {
    match ReadProjection(text)
    case None => None
    case Some((entry, rest)) =>
      if ", " <= rest && fuel > 0 then
        match ReadProjections(rest[2..], fuel - 1)
        case None => None
        case Some((entries, rest)) => Some(([entry] + entries, rest))
      else Some(([entry], rest))
  }

  function ReadSort(text: string): Option<(string, SortOrder)>
  {
    match Expect(text, " ORDER BY ")
    case None => None
    case Some(text) =>
      match ReadIdentifier(text)
      case None => None
      case Some((name, rest)) =>
        if rest == " ASC" then Some((name, Asc)) else if rest == " DESC" then Some((name, Desc)) else None
  }

  function ReadTail(text: string, xAxis: string): Option<Option<(string, SortOrder)>>
  {
    match ReadIdentifier(text)
    case None => None
    case Some((name, rest)) =>
      if name != xAxis then None
      else if rest == "" then Some(None)
      else
        match ReadSort(rest)
        case None => None
        case Some(sort) => Some(Some(sort))
  }

  /** A left-to-right reader of the generated text, for a known source query. */
  function ReadQuery(text: string, source: string): Option<QueryRead>
  {
    match Expect(text, "SELECT ")
    case None => None
    case Some(text) =>
      match ReadIdentifier(text)
      case None => None
      case Some((xAxis, text)) =>
        match Expect(text, " AS ")
        case None => None
        case Some(text) =>
          match ReadIdentifier(text)
          case None => None
          case Some((xAlias, text)) => ReadSelection(text, source, xAxis, xAlias)
  }

  function ReadSelection(text: string, source: string, xAxis: string, xAlias: string): Option<QueryRead>
  {
    match Expect(text, ", ")
    case None => None
    case Some(text) =>
      match ReadProjections(text, MAX_CHART_SERIES)
      case None => None
      case Some((series, text)) =>
        match Expect(text, " FROM (" + source + ") AS subquery GROUP BY ")
        case None => None
        case Some(text) =>
          match ReadTail(text, xAxis)
          case None => None
          case Some(sort) => Some(QueryRead(xAxis, xAlias, series, sort))
  }

  predicate AllUsable(series: seq<ChartSeries>)
  {
    forall i :: 0 <= i < |series| ==> Usable(series[i])
  }

  function ToReads(series: seq<ChartSeries>): (r: seq<SeriesRead>)
    requires AllAggregated(series)
    ensures |r| == |series|
  {
    seq(|series|, i requires 0 <= i < |series| => ToRead(series[i]))
  }

  lemma {:induction false} ProjectionsRead(series: seq<ChartSeries>, rest: string, fuel: nat)
    requires series != [] && AllAggregated(series) && AllUsable(series) && |series| <= fuel + 1
    requires rest != "" && rest[0] == ' '
    ensures ReadProjections(Join(Projections(series), ", ") + rest, fuel) == Some((ToReads(series), rest))
    decreases |series|
  {
    hide ReadProjection, Projection, Usable, ToRead;
    var first, others := Projection(series[0]), Projections(series[1..]);
    assert Projections(series)[0] == first && Projections(series)[1..] == others;
    if |series| == 1 {
      ProjectionReads(series[0], rest);
      assert !(", " <= rest);
      assert ToReads(series) == [ToRead(series[0])];
    } else {
      var after := Join(others, ", ") + rest;
      ProjectionReads(series[0], ", " + after);
      assert first + ", " + Join(others, ", ") + rest == first + (", " + after);
      ProjectionsRead(series[1..], rest, fuel - 1);
      CommaReads(after);
      assert ToReads(series) == [ToRead(series[0])] + ToReads(series[1..]);
    }
  }

  lemma CommaReads(after: string)
    ensures ", " <= ", " + after && (", " + after)[2..] == after
  {
  }

  lemma TailReads(xAxis: string, sortBy: string, order: SortOrder)
    requires ValidIdentifier(xAxis) && ValidIdentifier(sortBy)
    ensures ReadTail(Tail(xAxis, sortBy, order), xAxis) ==
            Some(if order == Unsorted then None else Some((sortBy, order)))
  {
    hide ValidIdentifier, ReadIdentifier, Quoted;
    if order == Unsorted {
      IdentifierReads(xAxis, "");
      Unit(Quoted(xAxis));
    } else {
      var end := " " + order.AsStr();
      var sort := " ORDER BY " + (Quoted(sortBy) + end);
      assert " ORDER BY " + Quoted(sortBy) + " " + order.AsStr() == sort;
      IdentifierReads(xAxis, sort);
      ExpectReads(" ORDER BY ", Quoted(sortBy) + end);
      IdentifierReads(sortBy, end);
      assert order == Asc ==> end == " ASC";
      assert order == Desc ==> end == " DESC" && end[1] != " ASC"[1];
    }
  }

  lemma SelectionReads(source: string, xAxis: string, xAlias: string, series: seq<ChartSeries>, sortBy: string,
      order: SortOrder)
    requires ValidIdentifier(xAxis) && ValidIdentifier(sortBy)
    requires 1 <= |series| <= MAX_CHART_SERIES && AllAggregated(series) && AllUsable(series)
    ensures var from := " FROM (" + source + ") AS subquery GROUP BY " + Tail(xAxis, sortBy, order);
            ReadSelection(", " + (Join(Projections(series), ", ") + from), source, xAxis, xAlias) ==
            Some(QueryRead(xAxis, xAlias, ToReads(series), if order == Unsorted then None else Some((sortBy, order))))
  {
    hide ValidIdentifier, Tail, ReadTail, ReadProjections, Join, Projections, ToReads, AllUsable;
    var middle := " FROM (" + source + ") AS subquery GROUP BY ";
    var from := middle + Tail(xAxis, sortBy, order);
    ExpectReads(", ", Join(Projections(series), ", ") + from);
    assert from[0] == ' ';
    ProjectionsRead(series, from, MAX_CHART_SERIES);
    ExpectReads(middle, Tail(xAxis, sortBy, order));
    TailReads(xAxis, sortBy, order);
  }

  /** What a stored chart asks for, as far as the text should say it. */
  function Asked(content: AxisChartContent, names: seq<string>): QueryRead
    requires content.series != [] && AllAggregated(content.series) && content.yAxisSortOrder.Some?
  {
    QueryRead(
      content.xAxis, content.xAxisAlias, ToReads(content.series),
      if content.yAxisSortOrder == Some(Unsorted) then None
      else Some((SortBy(content, names), content.yAxisSortOrder.value)))
  }

  /** Whatever the builder accepts, edited content included, can be read back from its text. */
  lemma QueryReadsBack(content: AxisChartContent, source: string)
    requires AxisChartQuery(content, source).Ok?
    ensures OutputNames(content.xAxisAlias, content.series).Ok?
    ensures content.series != [] && AllAggregated(content.series) && content.yAxisSortOrder.Some?
    ensures ReadQuery(AxisChartQuery(content, source).value, source) ==
            Some(Asked(content, OutputNames(content.xAxisAlias, content.series).value))
  {
    var names := OutputNames(content.xAxisAlias, content.series).value;
    var sortBy, order := SortBy(content, names), content.yAxisSortOrder.value;
    AcceptedIsUsable(content, source);
    SelectReads(source, content.xAxis, content.xAxisAlias, content.series, sortBy, order);
  }

  lemma AcceptedIsUsable(content: AxisChartContent, source: string)
    requires AxisChartQuery(content, source).Ok?
    ensures OutputNames(content.xAxisAlias, content.series).Ok?
    ensures content.yAxisSortOrder.Some?
    ensures ValidIdentifier(content.xAxis) && ValidIdentifier(content.xAxisAlias)
    ensures 1 <= |content.series| <= MAX_CHART_SERIES && AllAggregated(content.series) && AllUsable(content.series)
    ensures ValidIdentifier(SortBy(content, OutputNames(content.xAxisAlias, content.series).value))
  {
    hide ValidIdentifier, SelectText, FirstRepeat;
    var names := OutputNames(content.xAxisAlias, content.series).value;
    forall i | 0 <= i < |content.series|
      ensures Usable(content.series[i])
    {
      assert SeriesError(content.series[i]).None?;
    }
    assert content.series[0].alias == Aliases(content.series)[0];
    forall i | 0 <= i < |names|
      ensures ValidIdentifier(names[i])
    {
      assert i > 0 ==> Usable(content.series[i - 1]);
    }
  }

  lemma SelectReads(source: string, xAxis: string, xAlias: string, series: seq<ChartSeries>, sortBy: string,
      order: SortOrder)
    requires ValidIdentifier(xAxis) && ValidIdentifier(xAlias) && ValidIdentifier(sortBy)
    requires 1 <= |series| <= MAX_CHART_SERIES && AllAggregated(series) && AllUsable(series)
    ensures ReadQuery(SelectText(source, xAxis, xAlias, Projections(series), sortBy, order), source) ==
            Some(QueryRead(xAxis, xAlias, ToReads(series), if order == Unsorted then None else Some((sortBy, order))))
  {
    hide ValidIdentifier, Tail, Join, Projections, ToReads, AllUsable, Quoted, ReadIdentifier, ReadSelection;
    var from := " FROM (" + source + ") AS subquery GROUP BY " + Tail(xAxis, sortBy, order);
    var selection := ", " + (Join(Projections(series), ", ") + from);
    var aliased := Quoted(xAlias) + selection;
    ExpectReads("SELECT ", Quoted(xAxis) + (" AS " + aliased));
    IdentifierReads(xAxis, " AS " + aliased);
    ExpectReads(" AS ", aliased);
    IdentifierReads(xAlias, selection);
    SelectionReads(source, xAxis, xAlias, series, sortBy, order);
  }

  /** Two accepted charts with the same text over the same source ask for the same thing. */
  lemma QueryTextIsInjective(a: AxisChartContent, b: AxisChartContent, source: string)
    requires AxisChartQuery(a, source).Ok? && AxisChartQuery(a, source) == AxisChartQuery(b, source)
    ensures a.xAxis == b.xAxis && a.xAxisAlias == b.xAxisAlias && a.yAxisSortOrder == b.yAxisSortOrder
    ensures |a.series| == |b.series|
    ensures forall i :: 0 <= i < |a.series| ==>
              a.series[i].column == b.series[i].column && a.series[i].alias == b.series[i].alias &&
              a.series[i].aggregateFunction == b.series[i].aggregateFunction
  {
    hide AxisChartQuery, ReadQuery, OutputNames, SortBy;
    QueryReadsBack(a, source);
    QueryReadsBack(b, source);
    forall i | 0 <= i < |a.series|
      ensures ToRead(a.series[i]) == ToRead(b.series[i])
    {
      assert ToReads(a.series)[i] == ToReads(b.series)[i];
    }
  }

  // ---------- From the planned chart to what its text says ----------

  /** Whether the chart sorts by its series i: the one asked for, or the first when none is. */
  predicate SortsBy(chart: PlannedAxisChart, i: nat)
    requires i < |chart.series|
  {
    if chart.sortBySeriesColumn.Some? then chart.series[i].column == chart.sortBySeriesColumn.value else i == 0
  }

  /** The text asks for the chart's x-axis, columns, functions and order, under their output names. */
  predicate SaysChart(read: QueryRead, chart: PlannedAxisChart)
  {
    && read.xAxis == chart.xAxis && read.xAlias == chart.xAxis
    && |read.series| == |chart.series|
    && (forall i :: 0 <= i < |chart.series| ==>
          read.series[i].column == chart.series[i].column &&
          read.series[i].aggregateFunction == chart.series[i].aggregateFunction)
    && (if chart.sortOrder == Unsorted then read.sort == None
        else read.sort.Some? && read.sort.value.1 == chart.sortOrder &&
             exists i :: 0 <= i < |chart.series| && SortsBy(chart, i) && read.sort.value.0 == read.series[i].alias)
  }

  lemma SortSeries(chart: PlannedAxisChart) returns (i: nat)
    requires Sound(chart)
    ensures i < |chart.series| && SortsBy(chart, i)
  {
    i := 0;
    if chart.sortBySeriesColumn.Some? {
      i :| 0 <= i < |chart.series| && chart.series[i].column == chart.sortBySeriesColumn.value;
    }
  }

  lemma ContentReads(chart: PlannedAxisChart, k: nat)
    requires k < |chart.series|
    ensures var entry := chart.series[k];
            AllAggregated(ContentSeries(chart.series)) &&
            ToReads(ContentSeries(chart.series))[k] ==
            SeriesRead(entry.aggregateFunction, entry.column, SeriesAlias(entry.column, entry.aggregateFunction))
  {
    hide SeriesAlias;
  }

  lemma SaysBySeries(read: QueryRead, chart: PlannedAxisChart, i: nat)
    requires read.xAxis == chart.xAxis && read.xAlias == chart.xAxis && |read.series| == |chart.series|
    requires forall k :: 0 <= k < |chart.series| ==>
               read.series[k].column == chart.series[k].column &&
               read.series[k].aggregateFunction == chart.series[k].aggregateFunction
    requires i < |chart.series| && SortsBy(chart, i)
    requires read.sort == if chart.sortOrder == Unsorted then None else Some((read.series[i].alias, chart.sortOrder))
    ensures SaysChart(read, chart)
  {
    hide SortsBy;
  }

  lemma AskedSays(chart: PlannedAxisChart, cellId: Id)
    requires Sound(chart) && OutputNames(chart.xAxis, ContentSeries(chart.series)).Ok?
    ensures var content := AxisContent(cellId, chart);
            content.series != [] && AllAggregated(content.series) &&
            SaysChart(Asked(content, OutputNames(chart.xAxis, content.series).value), chart)
  {
    var content := AxisContent(cellId, chart);
    var i := SortSeries(chart);
    SortsByRequestedColumn(chart, cellId, i);
    ContentReads(chart, i);
    hide OutputNames, ContentSeries, ToReads, SeriesAlias, SortBy, AllAggregated, AliasOf, SaysChart, Sound;
    var said := ToReads(content.series);
    forall k | 0 <= k < |chart.series|
      ensures said[k].column == chart.series[k].column && said[k].aggregateFunction == chart.series[k].aggregateFunction
    {
      ContentReads(chart, k);
    }
    SaysBySeries(Asked(content, OutputNames(chart.xAxis, content.series).value), chart, i);
  }

  /** Read back, the text of an accepted plan chart says what the plan said. */
  lemma PlannedQueryReads(chart: PlannedAxisChart, cellId: Id, source: string)
    requires Sound(chart) && AxisChartQuery(AxisContent(cellId, chart), source).Ok?
    ensures var read := ReadQuery(AxisChartQuery(AxisContent(cellId, chart), source).value, source);
            read.Some? && SaysChart(read.value, chart)
  {
    hide Sound, AxisChartQuery, ReadQuery, OutputNames, ContentSeries, SaysChart, Asked, AliasOf;
    QueryReadsBack(AxisContent(cellId, chart), source);
    AskedSays(chart, cellId);
  }

  // ---------- The source query ----------

  predicate Droppable(c: char)
  {
    c == ';' || IsWhitespace(c)
  }

  /** `kept` is `query` without a run of whitespace and semicolons at its end, and ends in neither. */
  predicate Stripped(query: string, kept: string)
  {
    kept <= query &&
    (forall i :: |kept| <= i < |query| ==> Droppable(query[i])) &&
    (kept != "" ==> !Droppable(kept[|kept| - 1]))
  }

  method StripTrailingSemicolons(query: string) returns (trimmed: string)
    ensures Stripped(query, trimmed)
  {
    trimmed := TrimEnd(query);
    while trimmed != "" && trimmed[|trimmed| - 1] == ';'
      invariant trimmed <= query
      invariant forall i :: |trimmed| <= i < |query| ==> Droppable(query[i])
      invariant trimmed != "" ==> !IsWhitespace(trimmed[|trimmed| - 1])
      decreases |trimmed|
    {
      trimmed := TrimEnd(trimmed[..|trimmed| - 1]);
    }
  }

  lemma StrippedIsUnique(query: string, a: string, b: string)
    requires Stripped(query, a) && Stripped(query, b)
    ensures a == b
  {
    assert forall i :: |a| <= i < |b| ==> b[i] == query[i];
    assert forall i :: |b| <= i < |a| ==> a[i] == query[i];
  }
}
