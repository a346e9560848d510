/**
 The charts a plan leaves in the notebook and the queries they run: from the model's answer
 (backend/src/ai/dto.rs) over the stored content (backend/src/canvas/service.rs) to the SQL text
 (backend/src/cell/service.rs).
 */
module CanvasCharts {
  import opened Wrappers
  import opened CanvasPlan
  import opened CanvasStore
  import opened CanvasIntegrity
  import opened CanvasResults
  import ChartQuery

  function OpChart(op: CanvasOp): Option<PlannedChart>
  {
    if op.Delete? then None else op.chart
  }

  /** The content is a chart of the plan for the cell it draws. */
  predicate FromPlan(ops: seq<CanvasOp>, content: Content)
  {
    content.Chart? &&
    exists k :: 0 <= k < |ops| && OpChart(ops[k]).Some? &&
      content.chart == ChartContentOf(content.chart.CellId(), OpChart(ops[k]).value)
  }

  /** A chart's content was there before, or is a chart of the plan. */
  predicate HasOrigin(before: seq<Cell>, ops: seq<CanvasOp>, c: Cell)
  {
    c.IsChart() ==>
      (exists d :: d in before && d.id == c.id && d.content == c.content) || FromPlan(ops, c.content.value)
  }

  ghost predicate AllHaveOrigin(before: seq<Cell>, ops: seq<CanvasOp>, cells: seq<Cell>)
  {
    forall c :: c in cells ==> HasOrigin(before, ops, c)
  }

  lemma OriginSave(before: seq<Cell>, ops: seq<CanvasOp>, cells: seq<Cell>, cell: Cell)
    requires AllHaveOrigin(before, ops, cells) && HasOrigin(before, ops, cell)
    ensures AllHaveOrigin(before, ops, cells + [cell])
  {
    hide HasOrigin;
  }

  lemma OriginEdit(before: seq<Cell>, ops: seq<CanvasOp>, cells: seq<Cell>, id: Id, name: Option<string>,
      content: Option<Content>)
    requires AllHaveOrigin(before, ops, cells)
    requires content.Some? && content.value.Chart? ==> FromPlan(ops, content.value)
    ensures AllHaveOrigin(before, ops, Edited(cells, id, name, content))
  {
    var edited := Edited(cells, id, name, content);
    forall k | 0 <= k < |edited|
      ensures HasOrigin(before, ops, edited[k])
    {
      assert cells[k] in cells;
      assert HasOrigin(before, ops, cells[k]);
    }
  }

  lemma OriginWithout(before: seq<Cell>, ops: seq<CanvasOp>, cells: seq<Cell>, id: Id)
    requires AllHaveOrigin(before, ops, cells)
    ensures AllHaveOrigin(before, ops, Without(cells, id))
  {
    WithoutHas(cells, id);
    hide HasOrigin;
  }

  predicate PlannedIn(ops: seq<CanvasOp>, chart: Option<PlannedChart>)
  {
    chart.Some? ==> exists k :: 0 <= k < |ops| && OpChart(ops[k]) == chart
  }

  lemma PlannedIsFromPlan(ops: seq<CanvasOp>, source: Id, chart: PlannedChart)
    requires PlannedIn(ops, Some(chart))
    ensures FromPlan(ops, Chart(ChartContentOf(source, chart)))
  {
    hide ChartContentOf;
  }

  lemma OriginAddChart(
    faults: set<nat>, before: seq<Cell>, ops: seq<CanvasOp>, p: Progress, source: Id, title: Option<string>,
    chart: PlannedChart)
    requires AllHaveOrigin(before, ops, p.db.cells) && AddChart(faults, p, source, title, chart).Ok?
    requires PlannedIn(ops, Some(chart))
    ensures AllHaveOrigin(before, ops, AddChart(faults, p, source, title, chart).value.db.cells)
  {
    PlannedIsFromPlan(ops, source, chart);
    hide AllHaveOrigin, FromPlan, PlannedIn;
    OriginSave(before, ops, p.db.cells,
      Cell(p.db.nextId, ChartCell, title, Some(Chart(ChartContentOf(source, chart))), p.order));
  }

  lemma OriginAddPair(
    faults: set<nat>, before: seq<Cell>, ops: seq<CanvasOp>, p: Progress, title: Option<string>, sql: string,
    chart: Option<PlannedChart>)
    requires AllHaveOrigin(before, ops, p.db.cells) && AddPair(faults, p, title, sql, chart).Ok?
    requires PlannedIn(ops, chart)
    ensures AllHaveOrigin(before, ops, AddPair(faults, p, title, sql, chart).value.db.cells)
  {
    hide AllHaveOrigin, FromPlan, AddChart, PlannedIn;
    OriginSave(before, ops, p.db.cells, Cell(p.db.nextId, SqlCell, title, Some(Plain(sql)), p.order));
    if chart.Some? {
      var db := SaveCell(faults, p.db, SqlCell, title, Plain(sql), p.order).value;
      OriginAddChart(faults, before, ops, p.(db := db, order := p.order + 1), p.db.nextId, title, chart.value);
    }
  }

  lemma OriginUpdate(
    faults: set<nat>, before: seq<Cell>, ops: seq<CanvasOp>, p: Progress, pair: CellPair,
    title: Option<string>, sql: Option<string>, chart: Option<PlannedChart>)
    requires AllHaveOrigin(before, ops, p.db.cells) && UpdatePair(faults, p, pair, title, sql, chart).Ok?
    requires PlannedIn(ops, chart)
    ensures AllHaveOrigin(before, ops, UpdatePair(faults, p, pair, title, sql, chart).value.db.cells)
  {
    hide AllHaveOrigin, FromPlan, AddChart, Edited, HasCell, PlannedIn;
    var mid := UpdateSql(faults, p, pair, title, sql).value;
    OriginEdit(before, ops, p.db.cells, pair.sqlCellId, title, if sql.Some? then Some(Plain(sql.value)) else None);
    assert AllHaveOrigin(before, ops, mid.db.cells);
    hide UpdateSql;
    if chart.Some? {
      if pair.chartCellId.None? {
        OriginAddChart(faults, before, ops, mid, pair.sqlCellId,
          if title.Some? then title else Some(pair.title), chart.value);
      } else {
        PlannedIsFromPlan(ops, pair.sqlCellId, chart.value);
        OriginEdit(before, ops, mid.db.cells, pair.chartCellId.value, title,
          Some(Chart(ChartContentOf(pair.sqlCellId, chart.value))));
      }
    }
  }

  lemma OriginDelete(faults: set<nat>, before: seq<Cell>, ops: seq<CanvasOp>, p: Progress, pair: CellPair)
    requires AllHaveOrigin(before, ops, p.db.cells) && RemovePair(faults, p, pair).Ok?
    ensures AllHaveOrigin(before, ops, RemovePair(faults, p, pair).value.db.cells)
  {
    hide AllHaveOrigin, Without;
    var mid := RemoveChart(faults, p, pair).value;
    if pair.chartCellId.Some? {
      OriginWithout(before, ops, p.db.cells, pair.chartCellId.value);
    }
    OriginWithout(before, ops, mid.db.cells, pair.sqlCellId);
  }

  lemma OriginOne(faults: set<nat>, before: seq<Cell>, pairs: seq<CellPair>, ops: seq<CanvasOp>, p: Progress, k: nat)
    requires AllHaveOrigin(before, ops, p.db.cells) && k < |ops| && ApplyOne(faults, pairs, p, ops[k]).Ok?
    ensures AllHaveOrigin(before, ops, ApplyOne(faults, pairs, p, ops[k]).value.db.cells)
  {
    assert PlannedIn(ops, OpChart(ops[k]));
    hide AllHaveOrigin, FromPlan, AddPair, UpdatePair, RemovePair, PlannedIn;
    match ops[k]
    case Create(title, sql, chart) => OriginAddPair(faults, before, ops, p, title, sql, chart);
    case Update(index, title, sql, chart) =>
      if index !in p.deleted && index < |pairs| {
        OriginUpdate(faults, before, ops, p, pairs[index], title, sql, chart);
      }
    case Delete(index) =>
      if index !in p.deleted && index < |pairs| {
        OriginDelete(faults, before, ops, p, pairs[index]);
      }
  }

  lemma {:induction false} OriginAll(
    faults: set<nat>, before: seq<Cell>, pairs: seq<CellPair>, ops: seq<CanvasOp>, start: Progress, n: nat)
    requires AllHaveOrigin(before, ops, start.db.cells) && n <= |ops| && ApplyAll(faults, pairs, start, ops[..n]).Ok?
    ensures AllHaveOrigin(before, ops, ApplyAll(faults, pairs, start, ops[..n]).value.db.cells)
  {
    hide AllHaveOrigin, ApplyOne;
    if n > 0 {
      assert ops[..n][..n - 1] == ops[..n - 1];
      OriginAll(faults, before, pairs, ops, start, n - 1);
      OriginOne(faults, before, pairs, ops, ApplyAll(faults, pairs, start, ops[..n - 1]).value, n - 1);
    }
  }

  /** Every chart left in the notebook was there, unchanged, or says exactly what the plan asked for. */
  lemma ChartsHaveOrigin(faults: set<nat>, db: Db, ops: seq<CanvasOp>)
    requires OpsOutcome(faults, db, ops).Ok?
    ensures AllHaveOrigin(db.cells, ops, OpsOutcome(faults, db, ops).value.0.cells)
  {
    var start := CanvasStore.Start(db);
    assert AllHaveOrigin(db.cells, ops, start.db.cells);
    assert ops[..|ops|] == ops;
    hide *;
    OpsRun(faults, db, ops);
    OriginAll(faults, db.cells, Pairs(db.cells), ops, start, |ops|);
  }

  // ---------- Charts of a resolved plan ----------

  predicate SoundSpec(spec: PlannedChartSpec)
  {
    (spec.Bar? || spec.Line?) ==> ChartQuery.Sound(spec.axis)
  }

  predicate SoundOp(op: CanvasOp)
  {
    OpChart(op).Some? ==> SoundSpec(OpChart(op).value.spec)
  }

  lemma SpecIsSound(chart: CanvasPlanChart)
    requires PlannedSpec(chart).Ok?
    ensures SoundSpec(PlannedSpec(chart).value)
  {
    hide ChartQuery.PlanAxis, ChartQuery.Sound, PlannedPie, PlannedMetric;
    if ChartQuery.PlanAxis(chart.axis).Ok? {
      ChartQuery.PlannedChartIsSound(chart.axis);
    }
    PieAndMetricSpecs(chart);
  }

  lemma PieAndMetricSpecs(chart: CanvasPlanChart)
    ensures PlannedPie(chart.pie).Ok? ==> PlannedPie(chart.pie).value.Pie?
    ensures PlannedMetric(chart.metric).Ok? ==> PlannedMetric(chart.metric).value.Metric?
  {
  }

  lemma ResolvedOpIsSound(cell: CanvasPlanCell, count: nat)
    requires ResolveOp(cell, count).Ok? && ResolveOp(cell, count).value.Some?
    ensures SoundOp(ResolveOp(cell, count).value.value)
  {
    hide PlannedSpec, SoundSpec;
    if cell.chart.Some? && PlannedSpec(cell.chart.value).Ok? {
      SpecIsSound(cell.chart.value);
    }
  }

  lemma {:induction false} ResolvedOpsAreSound(cells: seq<CanvasPlanCell>, queries: seq<string>, n: nat)
    requires n <= |cells| && ResolveAll(cells, queries, n).Ok?
    ensures forall op :: op in ResolveAll(cells, queries, n).value.ops ==> SoundOp(op)
  {
    hide ResolveOp, SoundOp, NormalizeSql, Keys;
    if n > 0 {
      ResolvedOpsAreSound(cells, queries, n - 1);
      var op := ResolveOp(cells[n - 1], |queries|).value;
      if op.Some? {
        ResolvedOpIsSound(cells[n - 1], |queries|);
      }
    }
  }

  /** The content of an axis chart can be run: only its identifiers may be at fault. */
  predicate RunsUnlessInvalid(axis: ChartQuery.AxisChartContent, source: string)
  {
    ChartQuery.AxisChartQuery(axis, source).Ok? <==>
    ChartQuery.ValidIdentifier(axis.xAxis) && ChartQuery.AllValid(ChartQuery.Aliases(axis.series)) &&
    axis.xAxis !in ChartQuery.Aliases(axis.series)
  }

  predicate AxisRuns(content: ChartContent, source: string)
  {
    (content.BarContent? || content.LineContent?) ==> RunsUnlessInvalid(content.axis, source)
  }

  lemma PlannedContentRuns(id: Id, chart: PlannedChart, source: string)
    requires SoundSpec(chart.spec)
    ensures AxisRuns(ChartContentOf(id, chart), source)
  {
    hide ChartQuery.Sound, ChartQuery.AxisChartQuery, ChartQuery.ValidIdentifier, ChartQuery.AllValid,
         ChartQuery.Aliases, ChartQuery.ContentSeries, ChartQuery.AliasOf;
    if chart.spec.Bar? || chart.spec.Line? {
      ChartQuery.SoundChartBuilds(chart.spec.axis, id, source);
    }
  }

  /**
   Whatever the model answered, every bar or line chart the applied plan created or changed yields
   a query over any source, unless an identifier is invalid or the x-axis is an output name: never
   too many series, a missing setting or a repeated output name.
   */
  lemma PlannedChartsRun(faults: set<nat>, db: Db, cells: seq<CanvasPlanCell>, queries: seq<string>, c: Cell,
      source: string)
    requires ResolveAll(cells, queries, |cells|).Ok?
    requires OpsOutcome(faults, db, ResolveAll(cells, queries, |cells|).value.ops).Ok?
    requires c in OpsOutcome(faults, db, ResolveAll(cells, queries, |cells|).value.ops).value.0.cells && c.IsChart()
    requires forall d :: d in db.cells && d.id == c.id ==> d.content != c.content
    ensures AxisRuns(c.content.value.chart, source)
  {
    hide OpsOutcome, ResolveAll, AxisRuns, ChartContentOf, SoundSpec;
    var ops := ResolveAll(cells, queries, |cells|).value.ops;
    ChartsHaveOrigin(faults, db, ops);
    ResolvedOpsAreSound(cells, queries, |cells|);
    assert HasOrigin(db.cells, ops, c);
    var k :| 0 <= k < |ops| && OpChart(ops[k]).Some? &&
             c.content.value.chart == ChartContentOf(c.content.value.chart.CellId(), OpChart(ops[k]).value);
    assert SoundOp(ops[k]);
    PlannedContentRuns(c.content.value.chart.CellId(), OpChart(ops[k]).value, source);
  }
}
