/**
 What a plan's cells ask for and what the operations resolved from them say: backend/src/ai/dto.rs.
 Everything is stated on the plan as the model answered it, untrimmed and unchecked.
 */
module CanvasRequest {
  import opened Wrappers
  import opened Text
  import opened ChartQuery
  import opened CanvasPlan

  // ---------- Charts ----------

  /** The planned chart says what the answer's settings say. */
  ghost predicate ChartAsAsked(asked: CanvasPlanChart, planned: PlannedChart)
  {
    planned.gridWidth == asked.gridWidth && planned.gridHeight == asked.gridHeight &&
    match asked.chartType
    case BarType => planned.spec.Bar? && asked.axis.Some? && AxisAsAsked(asked.axis.value, planned.spec.axis)
    case LineType => planned.spec.Line? && asked.axis.Some? && AxisAsAsked(asked.axis.value, planned.spec.axis)
    case PieType => planned.spec.Pie? && asked.pie.Some? && PieAsAsked(asked.pie.value, planned.spec)
    case MetricType => planned.spec.Metric? && MetricAsAsked(asked.metric, planned.spec)
  }

  ghost predicate PieAsAsked(asked: AiPieChart, spec: PlannedChartSpec)
    requires spec.Pie?
  {
    IsText(asked.category, Some(spec.category)) && IsText(asked.value, Some(spec.value)) &&
    spec.aggregateFunction == asked.aggregateFunction
  }

  /** Two decimals when nothing is said. */
  ghost predicate MetricAsAsked(asked: Option<AiMetricChart>, spec: PlannedChartSpec)
    requires spec.Metric?
  {
    (if asked.Some? && asked.value.decimalPrecision.Some?
     then spec.decimalPrecision == asked.value.decimalPrecision.value else spec.decimalPrecision == 2) &&
    IsTextOf(if asked.Some? then asked.value.suffix else None, spec.suffix)
  }

  lemma PiePlanned(asked: Option<AiPieChart>)
    requires PlannedPie(asked).Ok?
    ensures asked.Some? && PlannedPie(asked).value.Pie? && PieAsAsked(asked.value, PlannedPie(asked).value)
  {
    hide IsText, NonBlank;
    NonBlankIs(asked.value.category);
    NonBlankIs(asked.value.value);
  }

  lemma MetricPlanned(asked: Option<AiMetricChart>)
    requires PlannedMetric(asked).Ok?
    ensures PlannedMetric(asked).value.Metric? && MetricAsAsked(asked, PlannedMetric(asked).value)
  {
    NothingIsText();
    hide IsTextOf, NonEmpty;
    if asked.Some? {
      NonEmptyIs(asked.value.suffix);
    }
  }

  lemma SpecAsAsked(asked: CanvasPlanChart)
    requires PlannedSpec(asked).Ok?
    ensures ChartAsAsked(asked, PlannedChart(PlannedSpec(asked).value, asked.gridWidth, asked.gridHeight))
  {
    hide PlanAxis, AxisAsAsked, PieAsAsked, MetricAsAsked, PlannedPie, PlannedMetric;
    match asked.chartType
    case BarType => AcceptedAxis(asked.axis);
    case LineType => AcceptedAxis(asked.axis);
    case PieType => PiePlanned(asked.pie);
    case MetricType => MetricPlanned(asked.metric);
  }

  lemma NothingIsText()
    ensures IsTextOf(None, None)
  {
  }

  predicate TextIsGiven(s: Option<string>)
  {
    s.Some? && HasText(s.value)
  }

  /** The entries before j that are the first to name their column. */
  function FirstsBefore(entries: seq<AiChartSeries>, j: nat): nat
    requires j <= |entries|
  {
    if j == 0 then 0 else FirstsBefore(entries, j - 1) + if IsFirst(entries, j - 1) then 1 else 0
  }

  /** Entry j names the column first, and as one of the first 6. */
  ghost predicate NamesSort(axis: AiAxisChart, j: nat, column: string)
    requires j < |axis.series|
  {
    IsFirst(axis.series, j) && FirstsBefore(axis.series, j) < 6 && IsText(axis.series[j].column, Some(column))
  }

  /** The chart sorts by nothing, or by one of its first 6 columns. */
  ghost predicate SortIsKnown(axis: AiAxisChart)
  {
    TextIsGiven(axis.sortBySeriesColumn) ==>
    exists j: nat, column :: j < |axis.series| && NamesSort(axis, j, column) &&
      IsTextOf(axis.sortBySeriesColumn, Some(column))
  }

  predicate NamesSomeColumn(entries: seq<AiChartSeries>)
  {
    exists j :: 0 <= j < |entries| && HasText(entries[j].column)
  }

  /** What a chart needs to be accepted. */
  ghost predicate Acceptable(asked: CanvasPlanChart)
  {
    match asked.chartType
    case BarType => AxisAcceptable(asked.axis)
    case LineType => AxisAcceptable(asked.axis)
    case PieType => asked.pie.Some? && HasText(asked.pie.value.category) && HasText(asked.pie.value.value)
    case MetricType => asked.metric.Some? && asked.metric.value.decimalPrecision.Some? ==>
      asked.metric.value.decimalPrecision.value >= 0
  }

  ghost predicate AxisAcceptable(settings: Option<AiAxisChart>)
  {
    settings.Some? && HasText(settings.value.xAxis) && NamesSomeColumn(settings.value.series) &&
    SortIsKnown(settings.value)
  }

  lemma FirstAmongBlank(entries: seq<AiChartSeries>, n: nat)
    requires n < |entries| && forall j :: 0 <= j < n ==> NonBlank(entries[j].column).None?
    ensures IsFirst(entries, n) <==> NonBlank(entries[n].column).Some?
  {
    hide NonBlank;
  }

  lemma {:induction false} FirstsWhenNamed(entries: seq<AiChartSeries>, n: nat)
    requires n <= |entries|
    ensures FirstOfEachColumn(entries, n) == [] <==> forall j :: 0 <= j < n ==> NonBlank(entries[j].column).None?
  {
    hide IsFirst, NonBlank, NonEmpty;
    if n > 0 {
      FirstsWhenNamed(entries, n - 1);
      if FirstOfEachColumn(entries, n - 1) == [] {
        FirstAmongBlank(entries, n - 1);
      }
      FirstIsKept(entries, n - 1);
      hide FirstOfEachColumn;
    }
  }

  lemma FirstIsKept(entries: seq<AiChartSeries>, n: nat)
    requires n < |entries|
    ensures FirstOfEachColumn(entries, n + 1) == [] <==> FirstOfEachColumn(entries, n) == [] && !IsFirst(entries, n)
  {
    hide IsFirst, NonBlank, NonEmpty;
  }

  lemma SomeSeriesWhenNamed(entries: seq<AiChartSeries>)
    ensures FirstOfEachColumn(entries, |entries|) != [] <==> NamesSomeColumn(entries)
  {
    FirstsWhenNamed(entries, |entries|);
    hide FirstOfEachColumn, NonBlank, HasText;
    forall j | 0 <= j < |entries|
      ensures NonBlank(entries[j].column).Some? <==> HasText(entries[j].column)
    {
      NonBlankWhenText(entries[j].column);
    }
  }

  lemma NonBlankWhenText(s: string)
    ensures NonBlank(s).Some? <==> HasText(s)
  {
    NonBlankIs(s);
    hide NonBlank, HasText;
  }

  lemma NonEmptyWhenText(s: Option<string>)
    ensures NonEmpty(s).Some? <==> TextIsGiven(s)
  {
    if s.Some? {
      NonBlankWhenText(s.value);
    }
    hide NonBlank, HasText;
  }

  lemma {:induction false} SeriesOfEntry(entries: seq<AiChartSeries>, n: nat, j: nat)
    requires j < n <= |entries| && IsFirst(entries, j)
    ensures var all, m := FirstOfEachColumn(entries, n), FirstsBefore(entries, j);
            m < |all| && Some(all[m].column) == NonBlank(entries[j].column)
    decreases n
  {
    hide NonBlank, NonEmpty, IsFirst, Trim;
    FirstsAreCounted(entries, n - 1);
    if j < n - 1 {
      SeriesOfEntry(entries, n - 1, j);
    } else {
      FirstIsNamed(entries, j);
    }
  }

  lemma FirstIsNamed(entries: seq<AiChartSeries>, j: nat)
    requires j < |entries| && IsFirst(entries, j)
    ensures NonBlank(entries[j].column).Some?
  {
  }

  lemma {:induction false} FirstsAreCounted(entries: seq<AiChartSeries>, n: nat)
    requires n <= |entries|
    ensures |FirstOfEachColumn(entries, n)| == FirstsBefore(entries, n)
  {
    hide NonBlank, NonEmpty, IsFirst;
    if n > 0 {
      FirstsAreCounted(entries, n - 1);
    }
  }

  lemma {:induction false} EntryOfSeries(entries: seq<AiChartSeries>, n: nat, m: nat) returns (j: nat)
    requires n <= |entries| && m < |FirstOfEachColumn(entries, n)|
    ensures j < n && IsFirst(entries, j) && FirstsBefore(entries, j) == m
    ensures NonBlank(entries[j].column) == Some(FirstOfEachColumn(entries, n)[m].column)
    decreases n
  {
    hide NonBlank, NonEmpty, IsFirst;
    FirstsAreCounted(entries, n - 1);
    if m < |FirstOfEachColumn(entries, n - 1)| {
      j := EntryOfSeries(entries, n - 1, m);
    } else {
      j := n - 1;
      FirstIsNamed(entries, j);
    }
  }

  lemma KnownSort(axis: AiAxisChart, m: nat, column: string)
    requires m < |FirstOfEachColumn(axis.series, |axis.series|)| && m < MAX_CHART_SERIES
    requires FirstOfEachColumn(axis.series, |axis.series|)[m].column == column
    ensures exists j: nat :: j < |axis.series| && NamesSort(axis, j, column)
  {
    hide NonBlank, NonEmpty, IsFirst, IsText, FirstOfEachColumn;
    var j := EntryOfSeries(axis.series, |axis.series|, m);
    NonBlankIs(axis.series[j].column);
    assert NamesSort(axis, j, column);
  }

  lemma SortIsSeries(axis: AiAxisChart, j: nat, column: string)
    requires j < |axis.series| && NamesSort(axis, j, column)
    ensures HasColumn(Truncated(FirstOfEachColumn(axis.series, |axis.series|), MAX_CHART_SERIES), column)
  {
    hide NonBlank, NonEmpty, IsFirst, IsText, FirstOfEachColumn;
    SeriesOfEntry(axis.series, |axis.series|, j);
    SameText(axis.series[j].column, column);
    var series := Truncated(FirstOfEachColumn(axis.series, |axis.series|), MAX_CHART_SERIES);
    assert series[FirstsBefore(axis.series, j)].column == column;
  }

  lemma SortWhenKnown(axis: AiAxisChart)
    ensures var series := Truncated(FirstOfEachColumn(axis.series, |axis.series|), MAX_CHART_SERIES);
            var sortBy := NonEmpty(axis.sortBySeriesColumn);
            (sortBy.Some? ==> HasColumn(series, sortBy.value)) <==> SortIsKnown(axis)
  {
    hide NonBlank, NonEmpty, IsFirst, IsText, IsTextOf, FirstOfEachColumn, NamesSort, TextIsGiven;
    var all := FirstOfEachColumn(axis.series, |axis.series|);
    var sortBy := NonEmpty(axis.sortBySeriesColumn);
    NonEmptyWhenText(axis.sortBySeriesColumn);
    NonEmptyIs(axis.sortBySeriesColumn);
    if sortBy.Some? && HasColumn(Truncated(all, MAX_CHART_SERIES), sortBy.value) {
      var m :| 0 <= m < |all| && m < MAX_CHART_SERIES && all[m].column == sortBy.value;
      KnownSort(axis, m, sortBy.value);
    }
    if sortBy.Some? && SortIsKnown(axis) {
      var j: nat, column :| j < |axis.series| && NamesSort(axis, j, column) &&
                            IsTextOf(axis.sortBySeriesColumn, Some(column));
      SortIsSeries(axis, j, column);
      SameTextOf(axis.sortBySeriesColumn, column);
    }
  }

  lemma SameText(s: string, t: string)
    requires IsText(s, Some(t))
    ensures NonBlank(s) == Some(t)
  {
    TrimmedIsUnique(s, t);
    NonBlankIs(s);
    hide Trim, IsWhitespace;
  }

  lemma SameTextOf(s: Option<string>, t: string)
    requires IsTextOf(s, Some(t))
    ensures NonEmpty(s) == Some(t)
  {
    hide NonBlank, IsText;
    SameText(s.value, t);
  }

  lemma AxisWhenAcceptable(settings: Option<AiAxisChart>)
    ensures PlanAxis(settings).Ok? <==> AxisAcceptable(settings)
  {
    hide NonBlank, NonEmpty, FirstOfEachColumn, Truncated, HasColumn, SortIsKnown, HasText, NamesSomeColumn;
    if settings.Some? {
      NonBlankWhenText(settings.value.xAxis);
      SomeSeriesWhenNamed(settings.value.series);
      SortWhenKnown(settings.value);
    }
  }

  /** A chart is refused exactly when something it needs is missing or unknown. */
  lemma AcceptedWhenAcceptable(asked: CanvasPlanChart)
    ensures PlannedSpec(asked).Ok? <==> Acceptable(asked)
  {
    hide PlanAxis, AxisAcceptable, NonBlank, NonEmpty, HasText;
    AxisWhenAcceptable(asked.axis);
    if asked.pie.Some? {
      NonBlankWhenText(asked.pie.value.category);
      NonBlankWhenText(asked.pie.value.value);
    }
  }

  // ---------- Operations ----------

  ghost predicate OptionalChart(asked: Option<CanvasPlanChart>, planned: Option<PlannedChart>)
  {
    if asked.Some? then planned.Some? && ChartAsAsked(asked.value, planned.value) else planned.None?
  }

  /** The operation does what the plan's cell says, on the cell it names. */
  ghost predicate OpAsAsked(cell: CanvasPlanCell, op: CanvasOp)
  {
    match op
    case Create(title, sql, chart) =>
      cell.action == CreateCell && IsTextOf(cell.title, title) && IsTextOf(cell.sql, Some(sql)) &&
      OptionalChart(cell.chart, chart)
    case Update(index, title, sql, chart) =>
      cell.action == UpdateCell && cell.targetCellIndex.Some? && cell.targetCellIndex.value == index + 1 &&
      IsTextOf(cell.title, title) && IsTextOf(cell.sql, sql) && OptionalChart(cell.chart, chart)
    case Delete(index) =>
      cell.action == DeleteCell && cell.targetCellIndex.Some? && cell.targetCellIndex.value == index + 1
  }

  predicate NamesCell(cell: CanvasPlanCell, count: nat)
  {
    cell.targetCellIndex.Some? && 1 <= cell.targetCellIndex.value <= count
  }

  /** There is something to do: a query to create, a cell to delete, or a cell and something to change. */
  predicate Usable(cell: CanvasPlanCell, count: nat)
  {
    match cell.action
    case CreateCell => TextIsGiven(cell.sql)
    case UpdateCell => NamesCell(cell, count) && (TextIsGiven(cell.title) || TextIsGiven(cell.sql) || cell.chart.Some?)
    case DeleteCell => NamesCell(cell, count)
  }

  /** A cell is refused for its chart alone, and only if the chart would be used. */
  ghost predicate Refused(cell: CanvasPlanCell, count: nat)
  {
    !cell.action.DeleteCell? && Usable(cell, count) && cell.chart.Some? && !Acceptable(cell.chart.value)
  }

  lemma ChartResolved(chart: Option<CanvasPlanChart>, title: Option<string>)
    ensures ResolveChart(chart, title).Err? <==> chart.Some? && !Acceptable(chart.value)
    ensures ResolveChart(chart, title).Ok? ==>
              OptionalChart(chart, ResolveChart(chart, title).value) &&
              (ResolveChart(chart, title).value.Some? <==> chart.Some?)
    ensures ResolveChart(chart, title).Err? ==> ResolveChart(chart, title).error.title == title
  {
    hide PlannedSpec, Acceptable, ChartAsAsked;
    if chart.Some? {
      AcceptedWhenAcceptable(chart.value);
      if PlannedSpec(chart.value).Ok? {
        SpecAsAsked(chart.value);
      }
    }
  }

  /** What is done with the cell is as it says: refused, skipped, or one operation. */
  ghost predicate ResolvesAsAsked(cell: CanvasPlanCell, count: nat, r: Result<Option<CanvasOp>, PlanFailure>)
  {
    match r
    case Err(_) => Refused(cell, count)
    case Ok(None) => !Refused(cell, count) && !Usable(cell, count)
    case Ok(Some(op)) => !Refused(cell, count) && Usable(cell, count) && OpAsAsked(cell, op)
  }

  lemma CreateResolved(cell: CanvasPlanCell, count: nat)
    requires cell.action == CreateCell
    ensures ResolvesAsAsked(cell, count, ResolveOp(cell, count))
  {
    hide ResolveChart, OptionalChart, Acceptable, NonEmpty, TextIsGiven, IsTextOf, NamesCell, ToZeroBased, Trim;
    NonEmptyWhenText(cell.sql);
    NonEmptyIs(cell.sql);
    NonEmptyIs(cell.title);
    ChartResolved(cell.chart, cell.title);
  }

  lemma UpdateResolved(cell: CanvasPlanCell, count: nat)
    requires cell.action == UpdateCell
    ensures ResolvesAsAsked(cell, count, ResolveOp(cell, count))
  {
    hide ResolveChart, OptionalChart, Acceptable, NonEmpty, TextIsGiven, IsTextOf, ToZeroBased, Trim;
    NonEmptyWhenText(cell.sql);
    NonEmptyWhenText(cell.title);
    NonEmptyIs(cell.sql);
    NonEmptyIs(cell.title);
    ChartResolved(cell.chart, cell.title);
  }

  /** What one cell of the plan becomes. */
  lemma CellResolved(cell: CanvasPlanCell, count: nat)
    ensures ResolvesAsAsked(cell, count, ResolveOp(cell, count))
  {
    match cell.action
    case CreateCell => CreateResolved(cell, count);
    case UpdateCell => UpdateResolved(cell, count);
    case DeleteCell => {}
  }

  // ---------- The whole plan ----------

  /** A usable cell that asks for a query with this normal form. */
  ghost predicate AddsQuery(cell: CanvasPlanCell, key: string)
  {
    cell.action == CreateCell && exists sql :: IsTextOf(cell.sql, Some(sql)) && NormalizeSql(sql) == key
  }

  /** A cell that deletes a target's cell whose query has this normal form. */
  predicate RemovesQuery(cell: CanvasPlanCell, queries: seq<string>, key: string)
  {
    cell.action == DeleteCell && NamesCell(cell, |queries|) &&
    NormalizeSql(queries[cell.targetCellIndex.value - 1]) == key
  }

  /** No cell of the plan from a on and before n removes it. */
  predicate NotRemoved(cells: seq<CanvasPlanCell>, queries: seq<string>, a: int, n: nat, key: string)
    requires n <= |cells|
  {
    forall m :: 0 <= m < n && a <= m ==> !RemovesQuery(cells[m], queries, key)
  }

  /** The target had the query, or an earlier cell added it, and nothing removed it since. */
  ghost predicate TakenAsPresent(cells: seq<CanvasPlanCell>, queries: seq<string>, n: nat, key: string)
    requires n <= |cells|
  {
    (key in Keys(queries) && NotRemoved(cells, queries, 0, n, key)) ||
    exists a :: 0 <= a < n && AddsQuery(cells[a], key) && NotRemoved(cells, queries, a, n, key)
  }

  /** A cell that leaves no operation: there is nothing to do, or its query is taken to be present. */
  ghost predicate Dropped(cells: seq<CanvasPlanCell>, queries: seq<string>, m: nat)
    requires m < |cells|
  {
    !Usable(cells[m], |queries|) ||
    exists key :: AddsQuery(cells[m], key) && TakenAsPresent(cells, queries, m, key)
  }

  /** The operations are, in order, what the cells at these positions ask for; all others are dropped. */
  ghost predicate ResolvedAt(
    cells: seq<CanvasPlanCell>, queries: seq<string>, n: nat, ops: seq<CanvasOp>, at: seq<nat>)
    requires n <= |cells|
  {
    && |at| == |ops|
    && (forall k :: 0 <= k < |at| ==> at[k] < n && OpAsAsked(cells[at[k]], ops[k]))
    && (forall k, m :: 0 <= k < m < |at| ==> at[k] < at[m])
    && forall m :: 0 <= m < n ==> (m in at <==> !Dropped(cells, queries, m))
  }

  ghost predicate PresentIs(cells: seq<CanvasPlanCell>, queries: seq<string>, n: nat, present: set<string>)
    requires n <= |cells|
  {
    forall key :: key in present <==> TakenAsPresent(cells, queries, n, key)
  }

  lemma NotRemovedNext(cells: seq<CanvasPlanCell>, queries: seq<string>, a: int, n: nat, key: string)
    requires a <= n < |cells|
    ensures NotRemoved(cells, queries, a, n + 1, key) <==>
            NotRemoved(cells, queries, a, n, key) && !RemovesQuery(cells[n], queries, key)
  {
    hide RemovesQuery;
  }

  lemma TakenNext(cells: seq<CanvasPlanCell>, queries: seq<string>, n: nat, key: string)
    requires n < |cells|
    ensures TakenAsPresent(cells, queries, n + 1, key) <==>
            !RemovesQuery(cells[n], queries, key) &&
            (TakenAsPresent(cells, queries, n, key) || AddsQuery(cells[n], key))
  {
    hide AddsQuery, NotRemoved, RemovesQuery, Keys;
    var next := n + 1;
    forall a: int | a <= n
      ensures NotRemoved(cells, queries, a, next, key) <==>
              NotRemoved(cells, queries, a, n, key) && !RemovesQuery(cells[n], queries, key)
    {
      NotRemovedNext(cells, queries, a, n, key);
    }
    NothingRemoved(cells, queries, n, key);
  }

  lemma NothingRemoved(cells: seq<CanvasPlanCell>, queries: seq<string>, n: nat, key: string)
    requires n <= |cells|
    ensures NotRemoved(cells, queries, n, n, key)
  {
  }

  lemma AddsItsQuery(cell: CanvasPlanCell, op: CanvasOp, key: string)
    requires OpAsAsked(cell, op)
    ensures AddsQuery(cell, key) <==> op.Create? && NormalizeSql(op.sql) == key
  {
    hide OptionalChart, IsTextOf, NormalizeSql;
    if op.Create? {
      SameTextOf(cell.sql, op.sql);
      if AddsQuery(cell, key) {
        var sql :| IsTextOf(cell.sql, Some(sql)) && NormalizeSql(sql) == key;
        SameTextOf(cell.sql, sql);
      }
    }
  }

  lemma RemovesItsQuery(cell: CanvasPlanCell, op: CanvasOp, queries: seq<string>, key: string)
    requires OpAsAsked(cell, op)
    ensures RemovesQuery(cell, queries, key) <==>
            op.Delete? && op.index < |queries| && NormalizeSql(queries[op.index]) == key
  {
    hide OptionalChart, IsTextOf, NormalizeSql;
  }

  lemma UnusableDoesNothing(cell: CanvasPlanCell, queries: seq<string>, key: string)
    requires !Usable(cell, |queries|)
    ensures !AddsQuery(cell, key) && !RemovesQuery(cell, queries, key)
  {
    hide NormalizeSql, IsTrimmed, HasText;
  }

  lemma SameAt(
    cells: seq<CanvasPlanCell>, queries: seq<string>, n: nat, ops: seq<CanvasOp>, at: seq<nat>)
    requires n < |cells| && ResolvedAt(cells, queries, n, ops, at) && Dropped(cells, queries, n)
    ensures ResolvedAt(cells, queries, n + 1, ops, at)
  {
    hide OpAsAsked, Dropped;
  }

  lemma MoreAt(
    cells: seq<CanvasPlanCell>, queries: seq<string>, n: nat, ops: seq<CanvasOp>, at: seq<nat>, op: CanvasOp)
    requires n < |cells| && ResolvedAt(cells, queries, n, ops, at) && !Dropped(cells, queries, n)
    requires OpAsAsked(cells[n], op)
    ensures ResolvedAt(cells, queries, n + 1, ops + [op], at + [n])
  {
    hide OpAsAsked, Dropped;
    var after := at + [n];
    assert after[|at|] == n;
    assert forall m :: m in after <==> m in at || m == n;
  }

  /** Whether the cell is dropped, given what is taken to be present. */
  lemma DroppedIs(cells: seq<CanvasPlanCell>, queries: seq<string>, m: nat, op: CanvasOp, present: set<string>)
    requires m < |cells| && PresentIs(cells, queries, m, present) && Usable(cells[m], |queries|)
    requires OpAsAsked(cells[m], op)
    ensures Dropped(cells, queries, m) <==> op.Create? && NormalizeSql(op.sql) in present
  {
    hide OpAsAsked, Usable, NormalizeSql, AddsQuery, TakenAsPresent;
    forall key
      ensures AddsQuery(cells[m], key) <==> op.Create? && NormalizeSql(op.sql) == key
    {
      AddsItsQuery(cells[m], op, key);
    }
    if Dropped(cells, queries, m) {
      var key :| AddsQuery(cells[m], key) && TakenAsPresent(cells, queries, m, key);
    }
    if op.Create? && NormalizeSql(op.sql) in present {
      assert AddsQuery(cells[m], NormalizeSql(op.sql));
    }
  }

  lemma PresentSkipped(cells: seq<CanvasPlanCell>, queries: seq<string>, n: nat, present: set<string>)
    requires n < |cells| && PresentIs(cells, queries, n, present) && !Usable(cells[n], |queries|)
    ensures PresentIs(cells, queries, n + 1, present)
  {
    hide Usable, AddsQuery, RemovesQuery, TakenAsPresent;
    var next := n + 1;
    forall key
      ensures TakenAsPresent(cells, queries, next, key) <==> TakenAsPresent(cells, queries, n, key)
    {
      TakenNext(cells, queries, n, key);
      UnusableDoesNothing(cells[n], queries, key);
    }
  }

  lemma PresentAccepted(cells: seq<CanvasPlanCell>, queries: seq<string>, n: nat, r: Resolved, op: CanvasOp)
    requires n < |cells| && PresentIs(cells, queries, n, r.present) && OpAsAsked(cells[n], op)
    ensures PresentIs(cells, queries, n + 1, Accept(r, op, queries).present)
  {
    hide OpAsAsked, AddsQuery, RemovesQuery, TakenAsPresent, NormalizeSql;
    var next := n + 1;
    forall key
      ensures TakenAsPresent(cells, queries, next, key) <==> key in Accept(r, op, queries).present
    {
      TakenNext(cells, queries, n, key);
      AddsItsQuery(cells[n], op, key);
      RemovesItsQuery(cells[n], op, queries, key);
    }
  }

  lemma PresentAtStart(cells: seq<CanvasPlanCell>, queries: seq<string>)
    ensures PresentIs(cells, queries, 0, Keys(queries))
    ensures ResolvedAt(cells, queries, 0, [], [])
  {
    hide Keys, Dropped;
  }

  lemma {:induction false} RunResolved(cells: seq<CanvasPlanCell>, queries: seq<string>, n: nat) returns (at: seq<nat>)
    requires n <= |cells| && ResolveAll(cells, queries, n).Ok?
    ensures PresentIs(cells, queries, n, ResolveAll(cells, queries, n).value.present)
    ensures ResolvedAt(cells, queries, n, ResolveAll(cells, queries, n).value.ops, at)
  {
    hide PresentIs, ResolvedAt, Dropped, OpAsAsked, Usable, Refused, ResolveOp, Keys, NormalizeSql;
    if n == 0 {
      at := [];
      PresentAtStart(cells, queries);
    } else {
      at := RunResolved(cells, queries, n - 1);
      var r := ResolveAll(cells, queries, n - 1).value;
      var op := ResolveOp(cells[n - 1], |queries|).value;
      CellResolved(cells[n - 1], |queries|);
      if op.None? {
        PresentSkipped(cells, queries, n - 1, r.present);
        UnusableIsDropped(cells, queries, n - 1);
        SameAt(cells, queries, n - 1, r.ops, at);
      } else {
        PresentAccepted(cells, queries, n - 1, r, op.value);
        DroppedIs(cells, queries, n - 1, op.value, r.present);
        if Dropped(cells, queries, n - 1) {
          SameAt(cells, queries, n - 1, r.ops, at);
        } else {
          MoreAt(cells, queries, n - 1, r.ops, at, op.value);
          at := at + [n - 1];
        }
      }
    }
  }

  lemma UnusableIsDropped(cells: seq<CanvasPlanCell>, queries: seq<string>, m: nat)
    requires m < |cells| && !Usable(cells[m], |queries|)
    ensures Dropped(cells, queries, m)
  {
  }

  lemma {:induction false} RunRefused(cells: seq<CanvasPlanCell>, queries: seq<string>, n: nat)
    requires n <= |cells|
    ensures ResolveAll(cells, queries, n).Err? <==> exists m :: 0 <= m < n && Refused(cells[m], |queries|)
  {
    hide OpAsAsked, Usable, Refused, ResolveOp, Keys, Accept;
    if n > 0 {
      RunRefused(cells, queries, n - 1);
      CellResolved(cells[n - 1], |queries|);
    }
  }

  /**
   What a plan becomes: refused exactly when one of its cells is, and otherwise the operations that
   its cells ask for, field by field and in their order, without those that have nothing to do and
   the creations of a query that is taken to be present.
   */
  lemma PlanResolved(cells: seq<CanvasPlanCell>, queries: seq<string>)
    ensures var r := ResolveAll(cells, queries, |cells|);
            if r.Err? then exists m :: 0 <= m < |cells| && Refused(cells[m], |queries|)
            else
              (forall m :: 0 <= m < |cells| ==> !Refused(cells[m], |queries|)) &&
              exists at :: ResolvedAt(cells, queries, |cells|, r.value.ops, at)
  {
    hide *;
    RunRefused(cells, queries, |cells|);
    if ResolveAll(cells, queries, |cells|).Ok? {
      var at := RunResolved(cells, queries, |cells|);
    }
  }
}
