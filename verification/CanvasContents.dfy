/**
 What the cells of a notebook say after a plan is applied: backend/src/canvas/service.rs. The cells
 that were there are followed through the operations, the new ones are listed.
 */
module CanvasContents {
  import opened Wrappers
  import opened Sequences
  import opened CanvasPlan
  import opened CanvasStore
  import opened CanvasIntegrity
  import opened CanvasResults
  import CanvasDashboard
  import ChartQuery
  import GridPacker

  // ---------- What a chart shows ----------

  predicate SeriesShows(entry: ChartQuery.ChartSeries, planned: ChartQuery.PlannedSeries, i: nat)
  {
    entry.column == planned.column && entry.aggregateFunction == Some(planned.aggregateFunction) &&
    entry.caption == planned.caption && entry.colorIndex == Some(i) &&
    entry.alias == ChartQuery.SeriesAlias(planned.column, planned.aggregateFunction)
  }

  predicate FirstWithColumn(content: ChartQuery.AxisChartContent, column: string, i: nat)
    requires i < |content.series|
  {
    content.series[i].column == column && forall j :: 0 <= j < i ==> content.series[j].column != column
  }

  /** Sorted by the output name of the first series with the column asked for, if there is one. */
  predicate SortShows(content: ChartQuery.AxisChartContent, column: Option<string>)
  {
    (column.None? ==> content.yAxisSortBy.None?) &&
    (column.Some? ==>
      (forall i :: 0 <= i < |content.series| && FirstWithColumn(content, column.value, i) ==>
         content.yAxisSortBy == Some(content.series[i].alias)) &&
      ((forall i :: 0 <= i < |content.series| ==> content.series[i].column != column.value) ==>
         content.yAxisSortBy.None?))
  }

  predicate AxisShows(content: ChartQuery.AxisChartContent, source: Id, chart: ChartQuery.PlannedAxisChart)
  {
    content.cellId == source && content.xAxis == chart.xAxis && content.xAxisAlias == chart.xAxis &&
    |content.series| == |chart.series| &&
    (forall i :: 0 <= i < |chart.series| ==> SeriesShows(content.series[i], chart.series[i], i)) &&
    SortShows(content, chart.sortBySeriesColumn) && content.yAxisSortOrder == Some(chart.sortOrder)
  }

  /** The content is a chart of the planned kind that draws the source as planned. */
  predicate Shows(content: Content, source: Id, chart: PlannedChart)
  {
    content.Chart? &&
    match chart.spec
    case Bar(axis) => content.chart.BarContent? && AxisShows(content.chart.axis, source, axis)
    case Line(axis) => content.chart.LineContent? && AxisShows(content.chart.axis, source, axis)
    case Pie(category, value, f) =>
      content.chart.PieContent? && content.chart.sourceId == source && content.chart.category == category &&
      content.chart.value == value && content.chart.aggregateFunction == f
    case Metric(precision, suffix) =>
      content.chart.MetricContent? && content.chart.sourceId == source &&
      content.chart.decimalPrecision == precision && content.chart.suffix == suffix
  }

  lemma {:induction false} AliasIsFirst(series: seq<ChartQuery.ChartSeries>, column: string)
    ensures forall i :: 0 <= i < |series| && series[i].column == column ==>
              (forall j :: 0 <= j < i ==> series[j].column != column) ==>
              ChartQuery.AliasOf(series, column) == Some(series[i].alias)
    ensures (forall i :: 0 <= i < |series| ==> series[i].column != column) ==>
              ChartQuery.AliasOf(series, column).None?
  {
    forall i | 0 <= i < |series| && series[i].column == column &&
               forall j :: 0 <= j < i ==> series[j].column != column
      ensures ChartQuery.AliasOf(series, column) == Some(series[i].alias)
    {
      ChartQuery.AliasOfColumn(series, i);
    }
    if forall i :: 0 <= i < |series| ==> series[i].column != column {
      NoAlias(series, column);
    }
  }

  lemma {:induction false} NoAlias(series: seq<ChartQuery.ChartSeries>, column: string)
    requires forall i :: 0 <= i < |series| ==> series[i].column != column
    ensures ChartQuery.AliasOf(series, column).None?
  {
    if series != [] {
      NoAlias(series[1..], column);
    }
  }

  lemma AxisContentShows(source: Id, chart: ChartQuery.PlannedAxisChart)
    ensures AxisShows(ChartQuery.AxisContent(source, chart), source, chart)
  {
    hide ChartQuery.SeriesAlias, ChartQuery.AliasOf;
    if chart.sortBySeriesColumn.Some? {
      AliasIsFirst(ChartQuery.ContentSeries(chart.series), chart.sortBySeriesColumn.value);
    }
  }

  lemma ContentShows(source: Id, chart: PlannedChart)
    ensures Shows(Chart(ChartContentOf(source, chart)), source, chart)
  {
    hide ChartQuery.AxisContent, AxisShows;
    if chart.spec.Bar? || chart.spec.Line? {
      AxisContentShows(source, chart.spec.axis);
    }
  }

  // ---------- The cells that were there ----------

  predicate OfPair(pair: CellPair, id: Id)
  {
    pair.sqlCellId == id || pair.chartCellId == Some(id)
  }

  predicate Deletes(pairs: seq<CellPair>, op: CanvasOp, id: Id)
  {
    op.Delete? && op.index < |pairs| && OfPair(pairs[op.index], id)
  }

  /** A title renames the query, and the chart when it is drawn anew. */
  predicate Renames(pairs: seq<CellPair>, op: CanvasOp, id: Id)
  {
    op.Update? && op.index < |pairs| && op.title.Some? &&
    (pairs[op.index].sqlCellId == id || (pairs[op.index].chartCellId == Some(id) && op.chart.Some?))
  }

  predicate Rewrites(pairs: seq<CellPair>, op: CanvasOp, id: Id)
  {
    op.Update? && op.index < |pairs| && op.newSql.Some? && pairs[op.index].sqlCellId == id
  }

  predicate Redraws(pairs: seq<CellPair>, op: CanvasOp, id: Id)
  {
    op.Update? && op.index < |pairs| && op.chart.Some? && pairs[op.index].chartCellId == Some(id)
  }

  predicate Gone(pairs: seq<CellPair>, ops: seq<CanvasOp>, id: Id)
  {
    exists k :: 0 <= k < |ops| && Deletes(pairs, ops[k], id)
  }

  /** The cell with what one operation says about it. */
  function Touched(pairs: seq<CellPair>, op: CanvasOp, c: Cell): Cell
  {
    c.(name := if Renames(pairs, op, c.id) then op.title else c.name,
       content := if Redraws(pairs, op, c.id)
                  then Some(Chart(ChartContentOf(pairs[op.index].sqlCellId, op.chart.value)))
                  else if Rewrites(pairs, op, c.id) then Some(Plain(op.newSql.value)) else c.content)
  }

  function AllTouched(pairs: seq<CellPair>, ops: seq<CanvasOp>, c: Cell): (r: Cell)
    ensures r.id == c.id && r.cellType == c.cellType && r.displayOrder == c.displayOrder
  {
    if ops == [] then c else Touched(pairs, ops[|ops| - 1], AllTouched(pairs, ops[..|ops| - 1], c))
  }

  /** The cells that no operation deletes, in their order, with all that was said about them. */
  function Left(pairs: seq<CellPair>, ops: seq<CanvasOp>, cells: seq<Cell>): seq<Cell>
  {
    if cells == [] then []
    else
      var c := cells[|cells| - 1];
      Left(pairs, ops, cells[..|cells| - 1]) + if Gone(pairs, ops, c.id) then [] else [AllTouched(pairs, ops, c)]
  }

  lemma GoneNext(pairs: seq<CellPair>, ops: seq<CanvasOp>, op: CanvasOp, id: Id)
    ensures Gone(pairs, ops + [op], id) <==> Gone(pairs, ops, id) || Deletes(pairs, op, id)
  {
    hide Deletes;
    var all := ops + [op];
    assert all[|ops|] == op;
    if Gone(pairs, ops, id) {
      var k :| 0 <= k < |ops| && Deletes(pairs, ops[k], id);
      assert all[k] == ops[k];
    }
  }

  lemma TouchedNext(pairs: seq<CellPair>, ops: seq<CanvasOp>, op: CanvasOp, c: Cell)
    ensures AllTouched(pairs, ops + [op], c) == Touched(pairs, op, AllTouched(pairs, ops, c))
  {
    hide Touched;
    assert (ops + [op])[..|ops|] == ops;
  }

  /** An operation that deletes nothing touches each cell left on its own. */
  lemma {:induction false} LeftTouched(pairs: seq<CellPair>, ops: seq<CanvasOp>, op: CanvasOp, cells: seq<Cell>)
    requires !op.Delete?
    ensures |Left(pairs, ops + [op], cells)| == |Left(pairs, ops, cells)|
    ensures forall k :: 0 <= k < |Left(pairs, ops, cells)| ==>
              Left(pairs, ops + [op], cells)[k] == Touched(pairs, op, Left(pairs, ops, cells)[k])
  {
    hide Gone, Touched, AllTouched;
    if cells != [] {
      var n := |cells| - 1;
      LeftTouched(pairs, ops, op, cells[..n]);
      GoneNext(pairs, ops, op, cells[n].id);
      TouchedNext(pairs, ops, op, cells[n]);
    }
  }

  lemma WithoutSnoc(cells: seq<Cell>, c: Cell, id: Id)
    ensures Without(cells + [c], id) == Without(cells, id) + if c.id == id then [] else [c]
  {
    assert (cells + [c])[..|cells|] == cells;
  }

  /** What a deletion takes away: the chart of the pair, then its query. */
  function Dropping(cells: seq<Cell>, pair: CellPair): seq<Cell>
  {
    Without(if pair.chartCellId.Some? then Without(cells, pair.chartCellId.value) else cells, pair.sqlCellId)
  }

  lemma DroppingSnoc(cells: seq<Cell>, c: Cell, pair: CellPair)
    ensures Dropping(cells + [c], pair) == Dropping(cells, pair) + if OfPair(pair, c.id) then [] else [c]
  {
    if pair.chartCellId.Some? {
      var chart := pair.chartCellId.value;
      WithoutSnoc(cells, c, chart);
      if c.id == chart {
        Unit(Without(cells, chart));
        Unit(Dropping(cells, pair));
      } else {
        WithoutSnoc(Without(cells, chart), c, pair.sqlCellId);
      }
    } else {
      WithoutSnoc(cells, c, pair.sqlCellId);
    }
  }

  lemma {:induction false} LeftDropped(pairs: seq<CellPair>, ops: seq<CanvasOp>, index: nat, cells: seq<Cell>)
    requires index < |pairs|
    ensures Left(pairs, ops + [Delete(index)], cells) == Dropping(Left(pairs, ops, cells), pairs[index])
  {
    hide Gone, Touched, AllTouched, Dropping, OfPair;
    if cells == [] {
      NothingDropped(pairs[index]);
    } else {
      var n := |cells| - 1;
      var op, before := Delete(index), Left(pairs, ops, cells[..n]);
      LeftDropped(pairs, ops, index, cells[..n]);
      GoneNext(pairs, ops, op, cells[n].id);
      TouchedNext(pairs, ops, op, cells[n]);
      DeleteTouchesNothing(pairs, index, AllTouched(pairs, ops, cells[n]));
      DroppingSnoc(before, AllTouched(pairs, ops, cells[n]), pairs[index]);
      Unit(before);
      Unit(Dropping(before, pairs[index]));
    }
  }

  lemma NothingDropped(pair: CellPair)
    ensures Dropping([], pair) == []
  {
  }

  lemma DeleteTouchesNothing(pairs: seq<CellPair>, index: nat, c: Cell)
    ensures Touched(pairs, Delete(index), c) == c
  {
  }

  /** Nothing happens when the pair is not there, or not any more. */
  lemma {:induction false} LeftSame(pairs: seq<CellPair>, ops: seq<CanvasOp>, op: CanvasOp, cells: seq<Cell>)
    requires !op.Create? && (op.index >= |pairs| || Delete(op.index) in ops)
    ensures Left(pairs, ops + [op], cells) == Left(pairs, ops, cells)
  {
    hide Touched, AllTouched;
    if cells != [] {
      var n := |cells| - 1;
      LeftSame(pairs, ops, op, cells[..n]);
      GoneNext(pairs, ops, op, cells[n].id);
      TouchedNext(pairs, ops, op, cells[n]);
      NotOfPair(pairs, ops, op, cells[n].id);
      if !Gone(pairs, ops, cells[n].id) {
        UntouchedCell(pairs, op, AllTouched(pairs, ops, cells[n]));
      }
    }
  }

  lemma NotOfPair(pairs: seq<CellPair>, ops: seq<CanvasOp>, op: CanvasOp, id: Id)
    requires !op.Create? && (op.index >= |pairs| || Delete(op.index) in ops)
    ensures op.index < |pairs| && OfPair(pairs[op.index], id) ==> Gone(pairs, ops, id)
    ensures Deletes(pairs, op, id) ==> Gone(pairs, ops, id)
  {
    if op.index < |pairs| && OfPair(pairs[op.index], id) {
      var k :| 0 <= k < |ops| && ops[k] == Delete(op.index);
      assert Deletes(pairs, ops[k], id);
    }
  }

  lemma UntouchedCell(pairs: seq<CellPair>, op: CanvasOp, c: Cell)
    requires !op.Create? && (op.index < |pairs| ==> !OfPair(pairs[op.index], c.id))
    ensures Touched(pairs, op, c) == c
  {
  }

  // ---------- The cells that are new ----------

  /** A cell of the plan's own; a chart with what was planned. */
  datatype NewCell = NewCell(cell: Cell, chart: Option<PlannedChart>)

  function NewChart(id: Id, source: Id, title: Option<string>, chart: PlannedChart, order: int): NewCell
  {
    NewCell(Cell(id, ChartCell, title, Some(Chart(ChartContentOf(source, chart))), order), Some(chart))
  }

  /** What an operation adds after `ops`: a query with its chart, or a chart for a cell read without one. */
  function AddedBy(pairs: seq<CellPair>, ops: seq<CanvasOp>, op: CanvasOp, id: Id, order: int): seq<NewCell>
  {
    match op
    case Create(title, sql, chart) =>
      [NewCell(Cell(id, SqlCell, title, Some(Plain(sql)), order), None)] +
      if chart.None? then [] else [NewChart(id + 1, id, title, chart.value, order + 1)]
    case Update(index, title, _, chart) =>
      if index < |pairs| && chart.Some? && pairs[index].chartCellId.None? && Delete(index) !in ops then
        var name := if title.Some? then title else Some(pairs[index].title);
        [NewChart(id, pairs[index].sqlCellId, name, chart.value, order)]
      else []
    case Delete(_) => []
  }

  function Made(pairs: seq<CellPair>, ops: seq<CanvasOp>, id: Id, order: int): seq<NewCell>
  {
    if ops == [] then []
    else
      var made := Made(pairs, ops[..|ops| - 1], id, order);
      made + AddedBy(pairs, ops[..|ops| - 1], ops[|ops| - 1], id + |made|, order + |made|)
  }

  function CellsOf(made: seq<NewCell>): (cells: seq<Cell>)
    ensures |cells| == |made|
  {
    seq(|made|, k requires 0 <= k < |made| => made[k].cell)
  }

  /** One request for each new chart, of the planned size. */
  function RequestsOf(made: seq<NewCell>): seq<GridPacker.ChartRequest>
  {
    if made == [] then []
    else
      var m := made[|made| - 1];
      RequestsOf(made[..|made| - 1]) + if m.chart.Some? then [Request(m.cell.id, m.chart.value)] else []
  }

  /** The charts of the pairs deleted, each once. */
  function RemovedBy(pairs: seq<CellPair>, ops: seq<CanvasOp>): seq<Id>
  {
    if ops == [] then []
    else
      var before, op := ops[..|ops| - 1], ops[|ops| - 1];
      RemovedBy(pairs, before) +
      if op.Delete? && op.index < |pairs| && op !in before && pairs[op.index].chartCellId.Some?
      then [pairs[op.index].chartCellId.value] else []
  }

  // ---------- The run follows both ----------

  predicate OldPairs(pairs: seq<CellPair>, nextId: Id)
  {
    forall i :: 0 <= i < |pairs| ==>
      pairs[i].sqlCellId < nextId && (pairs[i].chartCellId.Some? ==> pairs[i].chartCellId.value < nextId)
  }

  ghost predicate Follows(db: Db, pairs: seq<CellPair>, ops: seq<CanvasOp>, p: Progress)
  {
    var made := Made(pairs, ops, db.nextId, MaxOrder(db.cells) + 1);
    p.db.cells == Left(pairs, ops, db.cells) + CellsOf(made) &&
    p.db.nextId == db.nextId + |made| && p.order == MaxOrder(db.cells) + 1 + |made| &&
    p.queued == RequestsOf(made) && p.removedIds == RemovedBy(pairs, ops) &&
    forall i: nat :: i in p.deleted <==> i < |pairs| && Delete(i) in ops
  }

  lemma {:induction false} MadeIds(pairs: seq<CellPair>, ops: seq<CanvasOp>, id: Id, order: int)
    ensures forall k :: 0 <= k < |Made(pairs, ops, id, order)| ==>
              Made(pairs, ops, id, order)[k].cell.id == id + k &&
              Made(pairs, ops, id, order)[k].cell.displayOrder == order + k
  {
    hide ChartContentOf;
    if ops != [] {
      MadeIds(pairs, ops[..|ops| - 1], id, order);
    }
  }

  lemma MadeNext(pairs: seq<CellPair>, ops: seq<CanvasOp>, op: CanvasOp, id: Id, order: int)
    ensures var made := Made(pairs, ops, id, order);
            Made(pairs, ops + [op], id, order) == made + AddedBy(pairs, ops, op, id + |made|, order + |made|)
  {
    hide AddedBy, Made;
    var all := ops + [op];
    assert all[..|all| - 1] == ops && all[|all| - 1] == op;
    MadeUnfolds(pairs, all, id, order);
  }

  lemma MadeUnfolds(pairs: seq<CellPair>, ops: seq<CanvasOp>, id: Id, order: int)
    requires ops != []
    ensures var before := ops[..|ops| - 1];
            var made := Made(pairs, before, id, order);
            Made(pairs, ops, id, order) ==
            made + AddedBy(pairs, before, ops[|ops| - 1], id + |made|, order + |made|)
  {
    hide AddedBy;
  }

  lemma RemovedNext(pairs: seq<CellPair>, ops: seq<CanvasOp>, op: CanvasOp)
    ensures RemovedBy(pairs, ops + [op]) == RemovedBy(pairs, ops) +
            if op.Delete? && op.index < |pairs| && op !in ops && pairs[op.index].chartCellId.Some?
            then [pairs[op.index].chartCellId.value] else []
  {
    assert (ops + [op])[..|ops|] == ops;
  }

  lemma CellsSnoc(made: seq<NewCell>, m: NewCell)
    ensures CellsOf(made + [m]) == CellsOf(made) + [m.cell]
    ensures RequestsOf(made + [m]) ==
            if m.chart.Some? then RequestsOf(made) + [Request(m.cell.id, m.chart.value)] else RequestsOf(made)
  {
    assert (made + [m])[..|made|] == made;
  }

  lemma DeletedNext(ops: seq<CanvasOp>, op: CanvasOp)
    ensures forall i: nat :: Delete(i) in ops + [op] <==> Delete(i) in ops || op == Delete(i)
  {
  }

  /** The state after one more new cell. */
  ghost predicate Grown(p: Progress, q: Progress, m: NewCell)
  {
    q.db.cells == p.db.cells + [m.cell] && q.db.nextId == p.db.nextId + 1 && q.order == p.order + 1 &&
    m.cell.id == p.db.nextId && m.cell.displayOrder == p.order &&
    q.queued == (if m.chart.Some? then p.queued + [Request(m.cell.id, m.chart.value)] else p.queued) &&
    q.removedIds == p.removedIds && q.deleted == p.deleted
  }

  lemma AddChartGrows(faults: set<nat>, p: Progress, source: Id, title: Option<string>, chart: PlannedChart)
    requires AddChart(faults, p, source, title, chart).Ok?
    ensures Grown(p, AddChart(faults, p, source, title, chart).value,
                  NewChart(p.db.nextId, source, title, chart, p.order))
  {
  }

  /** Follows, but for the cells that were there: `left` are what is left of them. */
  ghost predicate Grows(db: Db, left: seq<Cell>, made: seq<NewCell>, p: Progress)
  {
    p.db.cells == left + CellsOf(made) &&
    p.db.nextId == db.nextId + |made| && p.order == MaxOrder(db.cells) + 1 + |made| && p.queued == RequestsOf(made)
  }

  lemma GrowsByOne(db: Db, left: seq<Cell>, made: seq<NewCell>, p: Progress, q: Progress, m: NewCell)
    requires Grows(db, left, made, p) && Grown(p, q, m)
    ensures Grows(db, left, made + [m], q)
  {
    hide CellsOf, RequestsOf, MaxOrder;
    CellsSnoc(made, m);
    Assoc(left, CellsOf(made), [m.cell]);
  }

  lemma CreateGrows(faults: set<nat>, db: Db, left: seq<Cell>, made: seq<NewCell>, p: Progress,
                    pairs: seq<CellPair>, ops: seq<CanvasOp>, op: CanvasOp)
    requires op.Create? && Grows(db, left, made, p) && AddPair(faults, p, op.title, op.sql, op.chart).Ok?
    ensures var q := AddPair(faults, p, op.title, op.sql, op.chart).value;
            Grows(db, left, made + AddedBy(pairs, ops, op, p.db.nextId, p.order), q) &&
            q.removedIds == p.removedIds && q.deleted == p.deleted
  {
    hide Grows, AddChart, MaxOrder, ChartContentOf;
    var sql := NewCell(Cell(p.db.nextId, SqlCell, op.title, Some(Plain(op.sql)), p.order), None);
    var mid := p.(db := SaveCell(faults, p.db, SqlCell, op.title, Plain(op.sql), p.order).value, order := p.order + 1);
    GrowsByOne(db, left, made, p, mid, sql);
    if op.chart.Some? {
      var chart := NewChart(p.db.nextId + 1, p.db.nextId, op.title, op.chart.value, p.order + 1);
      AddChartGrows(faults, mid, p.db.nextId, op.title, op.chart.value);
      GrowsByOne(db, left, made + [sql], mid, AddPair(faults, p, op.title, op.sql, op.chart).value, chart);
      Assoc(made, [sql], [chart]);
    } else {
      Unit([sql]);
    }
  }

  // ---------- Edits ----------

  /** Both edits of an update, on each cell: the query and, if it is drawn anew, the chart read for it. */
  function Updated(cells: seq<Cell>, pair: CellPair, title: Option<string>, sql: Option<string>,
                   chart: Option<PlannedChart>): seq<Cell>
  {
    var edited := Edited(cells, pair.sqlCellId, title, if sql.Some? then Some(Plain(sql.value)) else None);
    if chart.Some? && pair.chartCellId.Some? then
      Edited(edited, pair.chartCellId.value, title, Some(Chart(ChartContentOf(pair.sqlCellId, chart.value))))
    else edited
  }

  lemma UpdatedAt(pairs: seq<CellPair>, op: CanvasOp, cells: seq<Cell>)
    requires op.Update? && op.index < |pairs|
    ensures var updated := Updated(cells, pairs[op.index], op.title, op.newSql, op.chart);
            |updated| == |cells| &&
            forall k :: 0 <= k < |cells| ==> updated[k] == Touched(pairs, op, cells[k])
  {
    hide ChartContentOf;
  }

  lemma EditedConcat(a: seq<Cell>, b: seq<Cell>, id: Id, name: Option<string>, content: Option<Content>)
    ensures Edited(a + b, id, name, content) == Edited(a, id, name, content) + Edited(b, id, name, content)
  {
  }

  lemma EditedNone(cells: seq<Cell>, id: Id, name: Option<string>, content: Option<Content>)
    requires forall c :: c in cells ==> c.id != id
    ensures Edited(cells, id, name, content) == cells
  {
    assert forall k :: 0 <= k < |cells| ==> cells[k] in cells;
  }

  lemma EditedNothing(cells: seq<Cell>, id: Id)
    ensures Edited(cells, id, None, None) == cells
  {
  }

  lemma UpdatedConcat(a: seq<Cell>, b: seq<Cell>, pair: CellPair, title: Option<string>, sql: Option<string>,
                      chart: Option<PlannedChart>)
    requires forall c :: c in b ==> !OfPair(pair, c.id)
    ensures Updated(a + b, pair, title, sql, chart) == Updated(a, pair, title, sql, chart) + b
  {
    hide Edited, ChartContentOf;
    var content := if sql.Some? then Some(Plain(sql.value)) else None;
    EditedConcat(a, b, pair.sqlCellId, title, content);
    EditedNone(b, pair.sqlCellId, title, content);
    if chart.Some? && pair.chartCellId.Some? {
      var drawn := Some(Chart(ChartContentOf(pair.sqlCellId, chart.value)));
      EditedConcat(Edited(a, pair.sqlCellId, title, content), b, pair.chartCellId.value, title, drawn);
      EditedNone(b, pair.chartCellId.value, title, drawn);
    }
  }

  /** The update as the code does it: the edits, and a new chart if the pair has none. */
  lemma UpdateEdits(faults: set<nat>, p: Progress, pair: CellPair, title: Option<string>, sql: Option<string>,
                    chart: Option<PlannedChart>)
    requires UpdatePair(faults, p, pair, title, sql, chart).Ok?
    ensures var q, updated := UpdatePair(faults, p, pair, title, sql, chart).value,
                              Updated(p.db.cells, pair, title, sql, chart);
            q.removedIds == p.removedIds && q.deleted == p.deleted &&
            if chart.Some? && pair.chartCellId.None? then
              Grown(p.(db := p.db.(cells := updated)), q,
                    NewChart(p.db.nextId, pair.sqlCellId, if title.Some? then title else Some(pair.title), chart.value,
                             p.order))
            else q.db.cells == updated && q.db.nextId == p.db.nextId && q.order == p.order && q.queued == p.queued
  {
    hide Edited, HasCell, ChartContentOf;
    EditedNothing(p.db.cells, pair.sqlCellId);
    var mid := UpdateSql(faults, p, pair, title, sql).value;
    if chart.Some? && pair.chartCellId.None? {
      AddChartGrows(faults, mid, pair.sqlCellId, if title.Some? then title else Some(pair.title), chart.value);
      hide AddChart, NewChart;
    }
  }

  // ---------- Step by step ----------

  lemma MadeAreNew(pairs: seq<CellPair>, ops: seq<CanvasOp>, id: Id, order: int, i: nat)
    requires OldPairs(pairs, id) && i < |pairs|
    ensures forall c :: c in CellsOf(Made(pairs, ops, id, order)) ==> !OfPair(pairs[i], c.id)
  {
    MadeIds(pairs, ops, id, order);
    hide Made;
  }

  lemma LeftCreate(pairs: seq<CellPair>, ops: seq<CanvasOp>, op: CanvasOp, cells: seq<Cell>)
    requires op.Create?
    ensures Left(pairs, ops + [op], cells) == Left(pairs, ops, cells)
  {
    LeftTouched(pairs, ops, op, cells);
    hide Left;
  }

  lemma LeftUpdate(pairs: seq<CellPair>, ops: seq<CanvasOp>, op: CanvasOp, cells: seq<Cell>)
    requires op.Update? && op.index < |pairs|
    ensures Left(pairs, ops + [op], cells) ==
            Updated(Left(pairs, ops, cells), pairs[op.index], op.title, op.newSql, op.chart)
  {
    LeftTouched(pairs, ops, op, cells);
    UpdatedAt(pairs, op, Left(pairs, ops, cells));
    hide Left, Updated, Touched;
  }

  lemma FollowsParts(db: Db, pairs: seq<CellPair>, ops: seq<CanvasOp>, p: Progress)
    ensures Follows(db, pairs, ops, p) <==>
            Grows(db, Left(pairs, ops, db.cells), Made(pairs, ops, db.nextId, MaxOrder(db.cells) + 1), p) &&
            p.removedIds == RemovedBy(pairs, ops) &&
            forall i: nat :: i in p.deleted <==> i < |pairs| && Delete(i) in ops
  {
    hide Left, Made, RemovedBy, MaxOrder, CellsOf, RequestsOf;
  }

  lemma FollowsCreate(faults: set<nat>, db: Db, pairs: seq<CellPair>, ops: seq<CanvasOp>, p: Progress, op: CanvasOp)
    requires op.Create? && Follows(db, pairs, ops, p) && ApplyOne(faults, pairs, p, op).Ok?
    ensures Follows(db, pairs, ops + [op], ApplyOne(faults, pairs, p, op).value)
  {
    hide Left, Made, RemovedBy, MaxOrder, Follows, Grows, AddPair, AddedBy;
    var q, order := ApplyOne(faults, pairs, p, op).value, MaxOrder(db.cells) + 1;
    var left, made := Left(pairs, ops, db.cells), Made(pairs, ops, db.nextId, order);
    FollowsParts(db, pairs, ops, p);
    GrowsIds(db, left, made, p);
    CreateGrows(faults, db, left, made, p, pairs, ops, op);
    GrowsSame(db, left, made + AddedBy(pairs, ops, op, p.db.nextId, p.order),
              AddPair(faults, p, op.title, op.sql, op.chart).value, q);
    LeftCreate(pairs, ops, op, db.cells);
    MadeNext(pairs, ops, op, db.nextId, order);
    RemovedNext(pairs, ops, op);
    Unit(RemovedBy(pairs, ops));
    DeletedNext(ops, op);
    FollowsParts(db, pairs, ops + [op], q);
  }

  lemma GrowsIds(db: Db, left: seq<Cell>, made: seq<NewCell>, p: Progress)
    requires Grows(db, left, made, p)
    ensures p.db.nextId == db.nextId + |made| && p.order == MaxOrder(db.cells) + 1 + |made|
  {
    hide MaxOrder;
  }

  lemma GrowsSame(db: Db, left: seq<Cell>, made: seq<NewCell>, p: Progress, q: Progress)
    requires Grows(db, left, made, p)
    requires q.db.cells == p.db.cells && q.db.nextId == p.db.nextId && q.order == p.order && q.queued == p.queued
    ensures Grows(db, left, made, q)
  {
    hide MaxOrder, CellsOf, RequestsOf;
  }

  lemma GrowsUpdated(db: Db, left: seq<Cell>, made: seq<NewCell>, p: Progress, q: Progress, pair: CellPair,
                     title: Option<string>, sql: Option<string>, chart: Option<PlannedChart>)
    requires Grows(db, left, made, p) && forall c :: c in CellsOf(made) ==> !OfPair(pair, c.id)
    requires q.db.cells == Updated(p.db.cells, pair, title, sql, chart)
    requires q.db.nextId == p.db.nextId && q.order == p.order && q.queued == p.queued
    ensures Grows(db, Updated(left, pair, title, sql, chart), made, q)
  {
    hide MaxOrder, RequestsOf, CellsOf, Updated, OfPair;
    UpdatedConcat(left, CellsOf(made), pair, title, sql, chart);
  }

  lemma FollowsUpdate(faults: set<nat>, db: Db, pairs: seq<CellPair>, ops: seq<CanvasOp>, p: Progress, op: CanvasOp)
    requires op.Update? && op.index < |pairs| && op.index !in p.deleted && OldPairs(pairs, db.nextId)
    requires Follows(db, pairs, ops, p) && ApplyOne(faults, pairs, p, op).Ok?
    ensures Follows(db, pairs, ops + [op], ApplyOne(faults, pairs, p, op).value)
  {
    hide Left, Made, RemovedBy, MaxOrder, Follows, Grows, UpdatePair, Updated, OldPairs, CellsOf, NewChart, Grown,
         OfPair;
    var pair, order := pairs[op.index], MaxOrder(db.cells) + 1;
    var left, made := Left(pairs, ops, db.cells), Made(pairs, ops, db.nextId, order);
    var after := UpdatePair(faults, p, pair, op.title, op.newSql, op.chart).value;
    var q := ApplyOne(faults, pairs, p, op).value;
    var updated := p.(db := p.db.(cells := Updated(p.db.cells, pair, op.title, op.newSql, op.chart)));
    FollowsParts(db, pairs, ops, p);
    GrowsIds(db, left, made, p);
    MadeAreNew(pairs, ops, db.nextId, order, op.index);
    UpdateEdits(faults, p, pair, op.title, op.newSql, op.chart);
    GrowsUpdated(db, left, made, p, updated, pair, op.title, op.newSql, op.chart);
    LeftUpdate(pairs, ops, op, db.cells);
    MadeNext(pairs, ops, op, db.nextId, order);
    RemovedNext(pairs, ops, op);
    Unit(RemovedBy(pairs, ops));
    DeletedNext(ops, op);
    if op.chart.Some? && pair.chartCellId.None? {
      var m := NewChart(p.db.nextId, pair.sqlCellId, if op.title.Some? then op.title else Some(pair.title),
                        op.chart.value, p.order);
      GrowsByOne(db, Left(pairs, ops + [op], db.cells), made, updated, after, m);
      GrowsSame(db, Left(pairs, ops + [op], db.cells), made + [m], after, q);
    } else {
      Unit(made);
      GrowsSame(db, Left(pairs, ops + [op], db.cells), made, updated, q);
    }
    FollowsParts(db, pairs, ops + [op], q);
  }

  lemma {:induction false} WithoutConcat(a: seq<Cell>, b: seq<Cell>, id: Id)
    requires forall c :: c in b ==> c.id != id
    ensures Without(a + b, id) == Without(a, id) + b
  {
    if b == [] {
      Unit(a);
      Unit(Without(a, id));
    } else {
      var n := |b| - 1;
      WithoutConcat(a, b[..n], id);
      Assoc(a, b[..n], [b[n]]);
      Snoc(b);
      WithoutSnoc(a + b[..n], b[n], id);
      Assoc(Without(a, id), b[..n], [b[n]]);
    }
  }

  lemma DroppingConcat(a: seq<Cell>, b: seq<Cell>, pair: CellPair)
    requires forall c :: c in b ==> !OfPair(pair, c.id)
    ensures Dropping(a + b, pair) == Dropping(a, pair) + b
  {
    hide Without;
    if pair.chartCellId.Some? {
      WithoutConcat(a, b, pair.chartCellId.value);
      WithoutConcat(Without(a, pair.chartCellId.value), b, pair.sqlCellId);
    } else {
      WithoutConcat(a, b, pair.sqlCellId);
    }
  }

  lemma DeleteDrops(faults: set<nat>, p: Progress, pair: CellPair)
    requires RemovePair(faults, p, pair).Ok?
    ensures var q := RemovePair(faults, p, pair).value;
            q.db.cells == Dropping(p.db.cells, pair) && q.db.nextId == p.db.nextId && q.order == p.order &&
            q.queued == p.queued && q.deleted == p.deleted &&
            q.removedIds == p.removedIds + if pair.chartCellId.Some? then [pair.chartCellId.value] else []
  {
    hide Without;
    Unit(p.removedIds);
  }

  lemma GrowsDropped(db: Db, left: seq<Cell>, made: seq<NewCell>, p: Progress, q: Progress, pair: CellPair)
    requires Grows(db, left, made, p) && forall c :: c in CellsOf(made) ==> !OfPair(pair, c.id)
    requires q.db.cells == Dropping(p.db.cells, pair)
    requires q.db.nextId == p.db.nextId && q.order == p.order && q.queued == p.queued
    ensures Grows(db, Dropping(left, pair), made, q)
  {
    hide MaxOrder, RequestsOf, CellsOf, Dropping, OfPair;
    DroppingConcat(left, CellsOf(made), pair);
  }

  lemma FollowsDelete(faults: set<nat>, db: Db, pairs: seq<CellPair>, ops: seq<CanvasOp>, p: Progress, op: CanvasOp)
    requires op.Delete? && op.index < |pairs| && op.index !in p.deleted && OldPairs(pairs, db.nextId)
    requires Follows(db, pairs, ops, p) && ApplyOne(faults, pairs, p, op).Ok?
    ensures Follows(db, pairs, ops + [op], ApplyOne(faults, pairs, p, op).value)
  {
    hide Left, Made, RemovedBy, MaxOrder, Follows, Grows, RemovePair, Dropping, OldPairs, CellsOf, OfPair;
    var pair, order := pairs[op.index], MaxOrder(db.cells) + 1;
    var left, made := Left(pairs, ops, db.cells), Made(pairs, ops, db.nextId, order);
    var q := ApplyOne(faults, pairs, p, op).value;
    FollowsParts(db, pairs, ops, p);
    MadeAreNew(pairs, ops, db.nextId, order, op.index);
    DeleteDrops(faults, p, pair);
    GrowsDropped(db, left, made, p, q, pair);
    LeftDropped(pairs, ops, op.index, db.cells);
    MadeNext(pairs, ops, op, db.nextId, order);
    Unit(made);
    RemovedNext(pairs, ops, op);
    DeletedNext(ops, op);
    FollowsParts(db, pairs, ops + [op], q);
  }

  lemma FollowsSkipped(db: Db, pairs: seq<CellPair>, ops: seq<CanvasOp>, p: Progress, op: CanvasOp)
    requires !op.Create? && (op.index >= |pairs| || op.index in p.deleted) && Follows(db, pairs, ops, p)
    ensures Follows(db, pairs, ops + [op], p)
  {
    hide Left, Made, RemovedBy, MaxOrder, Follows, Grows;
    var made := Made(pairs, ops, db.nextId, MaxOrder(db.cells) + 1);
    FollowsParts(db, pairs, ops, p);
    LeftSame(pairs, ops, op, db.cells);
    MadeNext(pairs, ops, op, db.nextId, MaxOrder(db.cells) + 1);
    Unit(made);
    RemovedNext(pairs, ops, op);
    Unit(RemovedBy(pairs, ops));
    DeletedNext(ops, op);
    FollowsParts(db, pairs, ops + [op], p);
  }

  lemma {:induction false} FollowsRun(faults: set<nat>, db: Db, pairs: seq<CellPair>, ops: seq<CanvasOp>)
    requires OldPairs(pairs, db.nextId) && ApplyAll(faults, pairs, CanvasStore.Start(db), ops).Ok?
    ensures Follows(db, pairs, ops, ApplyAll(faults, pairs, CanvasStore.Start(db), ops).value)
  {
    hide Follows, OldPairs, MaxOrder, AddPair, UpdatePair, RemovePair;
    if ops == [] {
      FollowsStart(db, pairs);
    } else {
      var n := |ops| - 1;
      var p, op := ApplyAll(faults, pairs, CanvasStore.Start(db), ops[..n]).value, ops[n];
      FollowsRun(faults, db, pairs, ops[..n]);
      Snoc(ops);
      if op.Create? {
        FollowsCreate(faults, db, pairs, ops[..n], p, op);
      } else if op.index >= |pairs| || op.index in p.deleted {
        FollowsSkipped(db, pairs, ops[..n], p, op);
      } else if op.Update? {
        FollowsUpdate(faults, db, pairs, ops[..n], p, op);
      } else {
        FollowsDelete(faults, db, pairs, ops[..n], p, op);
      }
    }
  }

  lemma {:induction false} LeftOfNothing(pairs: seq<CellPair>, cells: seq<Cell>)
    ensures Left(pairs, [], cells) == cells
  {
    if cells != [] {
      LeftOfNothing(pairs, cells[..|cells| - 1]);
      Snoc(cells);
    }
  }

  lemma FollowsStart(db: Db, pairs: seq<CellPair>)
    ensures Follows(db, pairs, [], CanvasStore.Start(db))
  {
    hide MaxOrder, Left;
    LeftOfNothing(pairs, db.cells);
    Unit(db.cells);
  }

  lemma {:induction false} PairsAreOld(cells: seq<Cell>, n: nat, nextId: Id)
    requires n <= |cells| && UniqueIds(cells, nextId)
    ensures OldPairs(PairsOf(cells, n), nextId)
  {
    if n > 0 {
      PairsAreOld(cells, n - 1, nextId);
      assert cells[n - 1] in cells;
      ChartForIs(cells, |cells|, cells[n - 1].id);
    }
  }

  lemma AllPairsAreOld(cells: seq<Cell>, nextId: Id)
    requires UniqueIds(cells, nextId)
    ensures OldPairs(Pairs(cells), nextId)
  {
    PairsAreOld(cells, |cells|, nextId);
  }

  lemma FollowsCells(db: Db, pairs: seq<CellPair>, ops: seq<CanvasOp>, p: Progress)
    requires Follows(db, pairs, ops, p)
    ensures p.db.cells == Left(pairs, ops, db.cells) + CellsOf(NewCells(db, ops, pairs))
    ensures p.queued == RequestsOf(NewCells(db, ops, pairs)) && p.removedIds == RemovedBy(pairs, ops)
  {
    hide MaxOrder, Left, Made, RemovedBy, CellsOf, RequestsOf;
  }

  function NewCells(db: Db, ops: seq<CanvasOp>, pairs: seq<CellPair>): seq<NewCell>
  {
    Made(pairs, ops, db.nextId, MaxOrder(db.cells) + 1)
  }

  /** The notebook after a run: what is left of each cell, then the new cells. */
  lemma NotebookIs(faults: set<nat>, db: Db, ops: seq<CanvasOp>)
    requires UniqueIds(db.cells, db.nextId) && OpsOutcome(faults, db, ops).Ok?
    ensures var pairs := Pairs(db.cells);
            OpsOutcome(faults, db, ops).value.0.cells ==
            Left(pairs, ops, db.cells) + CellsOf(NewCells(db, ops, pairs))
  {
    hide *;
    AllPairsAreOld(db.cells, db.nextId);
    OpsRun(faults, db, ops);
    FollowsRun(faults, db, Pairs(db.cells), ops);
    FollowsCells(db, Pairs(db.cells), ops, ApplyAll(faults, Pairs(db.cells), CanvasStore.Start(db), ops).value);
  }

  // ---------- What each cell that was there says ----------

  predicate LastRename(pairs: seq<CellPair>, ops: seq<CanvasOp>, id: Id, k: nat)
    requires k < |ops|
  {
    Renames(pairs, ops[k], id) && forall m :: k < m < |ops| ==> !Renames(pairs, ops[m], id)
  }

  /** The last operation to rename the cell, if any, gave it its name. */
  predicate NameFollows(pairs: seq<CellPair>, ops: seq<CanvasOp>, was: Cell, now: Cell)
  {
    ((forall k :: 0 <= k < |ops| ==> !Renames(pairs, ops[k], was.id)) ==> now.name == was.name) &&
    forall k :: 0 <= k < |ops| && LastRename(pairs, ops, was.id, k) ==> now.name == ops[k].title
  }

  predicate Alters(pairs: seq<CellPair>, op: CanvasOp, id: Id)
  {
    Rewrites(pairs, op, id) || Redraws(pairs, op, id)
  }

  /** The content is the operation's query, or shows its chart. */
  predicate SaysAs(pairs: seq<CellPair>, op: CanvasOp, id: Id, content: Option<Content>)
  {
    if Redraws(pairs, op, id)
    then content.Some? && Shows(content.value, pairs[op.index].sqlCellId, op.chart.value)
    else Rewrites(pairs, op, id) && content == Some(Plain(op.newSql.value))
  }

  predicate LastAlteration(pairs: seq<CellPair>, ops: seq<CanvasOp>, id: Id, k: nat)
    requires k < |ops|
  {
    Alters(pairs, ops[k], id) && forall m :: k < m < |ops| ==> !Alters(pairs, ops[m], id)
  }

  /** The last operation to rewrite or redraw the cell, if any, gave it its content. */
  predicate ContentFollows(pairs: seq<CellPair>, ops: seq<CanvasOp>, was: Cell, now: Cell)
  {
    ((forall k :: 0 <= k < |ops| ==> !Alters(pairs, ops[k], was.id)) ==> now.content == was.content) &&
    forall k :: 0 <= k < |ops| && LastAlteration(pairs, ops, was.id, k) ==>
      SaysAs(pairs, ops[k], was.id, now.content)
  }

  lemma {:induction false} NameIsLast(pairs: seq<CellPair>, ops: seq<CanvasOp>, c: Cell)
    ensures NameFollows(pairs, ops, c, AllTouched(pairs, ops, c))
  {
    hide Redraws, Rewrites, ChartContentOf;
    if ops != [] {
      var n := |ops| - 1;
      NameIsLast(pairs, ops[..n], c);
      assert Snocced(ops);
      var now := AllTouched(pairs, ops, c);
      forall k | 0 <= k < |ops| && LastRename(pairs, ops, c.id, k)
        ensures now.name == ops[k].title
      {
        assert k < n ==> LastRename(pairs, ops[..n], c.id, k) && !Renames(pairs, ops[n], c.id);
      }
    }
  }

  predicate Snocced(ops: seq<CanvasOp>)
    requires ops != []
  {
    forall k :: 0 <= k < |ops| - 1 ==> ops[..|ops| - 1][k] == ops[k]
  }

  lemma TouchedSaysAs(pairs: seq<CellPair>, op: CanvasOp, c: Cell)
    requires Alters(pairs, op, c.id)
    ensures SaysAs(pairs, op, c.id, Touched(pairs, op, c).content)
  {
    hide ChartContentOf, Shows;
    if Redraws(pairs, op, c.id) {
      ContentShows(pairs[op.index].sqlCellId, op.chart.value);
    }
  }

  lemma {:induction false} ContentIsLast(pairs: seq<CellPair>, ops: seq<CanvasOp>, c: Cell)
    ensures ContentFollows(pairs, ops, c, AllTouched(pairs, ops, c))
  {
    hide Touched, SaysAs, Redraws, Rewrites;
    if ops != [] {
      var n := |ops| - 1;
      var before, now := AllTouched(pairs, ops[..n], c), AllTouched(pairs, ops, c);
      ContentIsLast(pairs, ops[..n], c);
      assert Snocced(ops);
      TouchedKeeps(pairs, ops[n], before);
      if Alters(pairs, ops[n], c.id) {
        TouchedSaysAs(pairs, ops[n], before);
      }
      hide Alters;
      forall k | 0 <= k < |ops| && LastAlteration(pairs, ops, c.id, k)
        ensures SaysAs(pairs, ops[k], c.id, now.content)
      {
        assert k < n ==> LastAlteration(pairs, ops[..n], c.id, k) && !Alters(pairs, ops[n], c.id);
      }
    }
  }

  lemma TouchedKeeps(pairs: seq<CellPair>, op: CanvasOp, c: Cell)
    ensures !Alters(pairs, op, c.id) ==> Touched(pairs, op, c).content == c.content
  {
  }

  /** What a cell is now: the same cell, with the last name and the last content it was given. */
  predicate CellFollows(pairs: seq<CellPair>, ops: seq<CanvasOp>, was: Cell, now: Cell)
  {
    now.id == was.id && now.cellType == was.cellType && now.displayOrder == was.displayOrder &&
    NameFollows(pairs, ops, was, now) && ContentFollows(pairs, ops, was, now)
  }

  lemma TouchedFollows(pairs: seq<CellPair>, ops: seq<CanvasOp>, c: Cell)
    ensures CellFollows(pairs, ops, c, AllTouched(pairs, ops, c))
  {
    NameIsLast(pairs, ops, c);
    ContentIsLast(pairs, ops, c);
    hide NameFollows, ContentFollows;
  }

  lemma {:induction false} LeftHas(pairs: seq<CellPair>, ops: seq<CanvasOp>, cells: seq<Cell>)
    ensures forall c :: c in cells && !Gone(pairs, ops, c.id) ==> AllTouched(pairs, ops, c) in Left(pairs, ops, cells)
    ensures forall d :: d in Left(pairs, ops, cells) ==>
              exists c :: c in cells && !Gone(pairs, ops, c.id) && d == AllTouched(pairs, ops, c)
  {
    hide Gone, AllTouched;
    if cells != [] {
      var n := |cells| - 1;
      LeftHas(pairs, ops, cells[..n]);
      assert forall c :: c in cells <==> c in cells[..n] || c == cells[n];
    }
  }

  lemma SameCell(cells: seq<Cell>, nextId: Id, c: Cell, d: Cell)
    requires UniqueIds(cells, nextId) && c in cells && d in cells && c.id == d.id
    ensures c == d
  {
  }

  /**
   Each cell that was there is gone exactly when an operation deletes its pair, and is otherwise the
   same cell with the last name and the last content the operations give it.
   */
  lemma CellsFollowOperations(faults: set<nat>, db: Db, ops: seq<CanvasOp>)
    requires UniqueIds(db.cells, db.nextId) && OpsOutcome(faults, db, ops).Ok?
    ensures var pairs, after := Pairs(db.cells), OpsOutcome(faults, db, ops).value.0;
            (forall c :: c in db.cells && !Gone(pairs, ops, c.id) ==> HasCell(after.cells, c.id)) &&
            (forall d :: d in after.cells && d.id < db.nextId ==> HasCell(db.cells, d.id)) &&
            forall c, d :: c in db.cells && d in after.cells && c.id == d.id ==>
              !Gone(pairs, ops, c.id) && CellFollows(pairs, ops, c, d)
  {
    var pairs, after := Pairs(db.cells), OpsOutcome(faults, db, ops).value.0;
    var left, made := Left(pairs, ops, db.cells), CellsOf(NewCells(db, ops, pairs));
    hide OpsOutcome, Pairs, Left, Gone, AllTouched, CellFollows, UniqueIds, HasCell, CellsOf, NewCells;
    NotebookIs(faults, db, ops);
    LeftHas(pairs, ops, db.cells);
    NewIds(db, ops, pairs);
    assert after.cells == left + made;
    forall c | c in db.cells && !Gone(pairs, ops, c.id)
      ensures HasCell(after.cells, c.id)
    {
      IsThere(after.cells, AllTouched(pairs, ops, c));
    }
    forall d | d in after.cells && d.id < db.nextId
      ensures HasCell(db.cells, d.id)
    {
      assert d in left;
      var c :| c in db.cells && !Gone(pairs, ops, c.id) && d == AllTouched(pairs, ops, c);
      IsThere(db.cells, c);
    }
    forall c, d | c in db.cells && d in after.cells && c.id == d.id
      ensures !Gone(pairs, ops, c.id) && CellFollows(pairs, ops, c, d)
    {
      OldId(db.cells, db.nextId, c);
      assert d in left;
      var b :| b in db.cells && !Gone(pairs, ops, b.id) && d == AllTouched(pairs, ops, b);
      SameCell(db.cells, db.nextId, b, c);
      TouchedFollows(pairs, ops, c);
    }
  }

  lemma IsThere(cells: seq<Cell>, c: Cell)
    requires c in cells
    ensures HasCell(cells, c.id)
  {
  }

  lemma OldId(cells: seq<Cell>, nextId: Id, c: Cell)
    requires UniqueIds(cells, nextId) && c in cells
    ensures c.id < nextId
  {
  }

  lemma NewIds(db: Db, ops: seq<CanvasOp>, pairs: seq<CellPair>)
    ensures forall c :: c in CellsOf(NewCells(db, ops, pairs)) ==> c.id >= db.nextId
  {
    MadeIds(pairs, ops, db.nextId, MaxOrder(db.cells) + 1);
    hide Made, MaxOrder;
  }

  // ---------- What the pairs are ----------

  /** The last cell to draw the source. */
  predicate LastDrawn(cells: seq<Cell>, k: nat, source: Id)
    requires k < |cells|
  {
    cells[k].Draws(source) && forall m :: k < m < |cells| ==> !cells[m].Draws(source)
  }

  /** The pair of an SQL cell: its name, its query, and the last cell that draws it. */
  predicate ReadsPair(cells: seq<Cell>, c: Cell, pair: CellPair)
  {
    pair.sqlCellId == c.id && pair.title == (if c.name.Some? then c.name.value else "") && pair.sql == c.Query() &&
    match pair.chartCellId
    case None => forall k :: 0 <= k < |cells| ==> !cells[k].Draws(c.id)
    case Some(id) => exists k :: 0 <= k < |cells| && LastDrawn(cells, k, c.id) && cells[k].id == id
  }

  /** The pairs are those of the SQL cells among the first n, in order. */
  ghost predicate PairsReadAt(cells: seq<Cell>, n: nat, pairs: seq<CellPair>, at: seq<nat>)
    requires n <= |cells|
  {
    && |at| == |pairs|
    && (forall i :: 0 <= i < |at| ==>
          at[i] < n && cells[at[i]].IsSql() && ReadsPair(cells, cells[at[i]], pairs[i]))
    && (forall i, j :: 0 <= i < j < |at| ==> at[i] < at[j])
    && forall k :: 0 <= k < n && cells[k].IsSql() ==> k in at
  }

  lemma {:induction false} ChartForIsLast(cells: seq<Cell>, n: nat, source: Id)
    requires n <= |cells| && forall m :: n <= m < |cells| ==> !cells[m].Draws(source)
    ensures match ChartFor(cells, n, source)
            case None => forall k :: 0 <= k < |cells| ==> !cells[k].Draws(source)
            case Some(id) => exists k :: 0 <= k < |cells| && LastDrawn(cells, k, source) && cells[k].id == id
  {
    if n > 0 {
      if cells[n - 1].Draws(source) {
        assert LastDrawn(cells, n - 1, source);
      } else {
        ChartForIsLast(cells, n - 1, source);
      }
    }
  }

  lemma PairIsRead(cells: seq<Cell>, c: Cell)
    ensures ReadsPair(cells, c, PairOf(cells, c))
  {
    ChartForIsLast(cells, |cells|, c.id);
    hide ChartFor, LastDrawn;
  }

  lemma MorePairs(cells: seq<Cell>, n: nat, pairs: seq<CellPair>, at: seq<nat>, pair: CellPair)
    requires n < |cells| && PairsReadAt(cells, n, pairs, at) && cells[n].IsSql() && ReadsPair(cells, cells[n], pair)
    ensures PairsReadAt(cells, n + 1, pairs + [pair], at + [n])
  {
    hide ReadsPair;
    var after := at + [n];
    assert after[|at|] == n;
    assert forall k :: k in at ==> k in after;
  }

  lemma NoMorePairs(cells: seq<Cell>, n: nat, pairs: seq<CellPair>, at: seq<nat>)
    requires n < |cells| && PairsReadAt(cells, n, pairs, at) && !cells[n].IsSql()
    ensures PairsReadAt(cells, n + 1, pairs, at)
  {
    hide ReadsPair;
  }

  lemma NoPairs(cells: seq<Cell>)
    ensures PairsReadAt(cells, 0, [], [])
  {
  }

  lemma {:induction false} PairsAreReadAt(cells: seq<Cell>, n: nat) returns (at: seq<nat>)
    requires n <= |cells|
    ensures PairsReadAt(cells, n, PairsOf(cells, n), at)
  {
    hide ReadsPair, PairOf, PairsReadAt;
    if n == 0 {
      at := [];
      NoPairs(cells);
    } else {
      at := PairsAreReadAt(cells, n - 1);
      if cells[n - 1].IsSql() {
        PairIsRead(cells, cells[n - 1]);
        MorePairs(cells, n - 1, PairsOf(cells, n - 1), at, PairOf(cells, cells[n - 1]));
        at := at + [n - 1];
      } else {
        NoMorePairs(cells, n - 1, PairsOf(cells, n - 1), at);
      }
    }
  }

  /** The pairs are those of all SQL cells, in display order. */
  lemma PairsRead(cells: seq<Cell>)
    ensures exists at :: PairsReadAt(cells, |cells|, Pairs(cells), at)
  {
    hide PairsOf, PairsReadAt;
    var at := PairsAreReadAt(cells, |cells|);
    assert PairsReadAt(cells, |cells|, Pairs(cells), at);
  }

  lemma PairPlaces(cells: seq<Cell>, i: nat, j: nat) returns (a: nat, b: nat)
    requires i < |Pairs(cells)| && j < |Pairs(cells)|
    ensures a < |cells| && cells[a].IsSql() && ReadsPair(cells, cells[a], Pairs(cells)[i])
    ensures b < |cells| && cells[b].IsSql() && ReadsPair(cells, cells[b], Pairs(cells)[j])
    ensures a == b ==> i == j
  {
    hide Pairs, ReadsPair;
    PairsRead(cells);
    var at :| PairsReadAt(cells, |cells|, Pairs(cells), at);
    a, b := at[i], at[j];
  }

  lemma DrawnPlace(cells: seq<Cell>, c: Cell, pair: CellPair) returns (k: nat)
    requires ReadsPair(cells, c, pair) && pair.chartCellId.Some?
    ensures k < |cells| && cells[k].Draws(c.id) && cells[k].id == pair.chartCellId.value
  {
    k :| 0 <= k < |cells| && LastDrawn(cells, k, c.id) && cells[k].id == pair.chartCellId.value;
  }

  lemma SamePlace(cells: seq<Cell>, nextId: Id, a: nat, b: nat)
    requires UniqueIds(cells, nextId) && a < |cells| && b < |cells| && cells[a].id == cells[b].id
    ensures a == b
  {
  }

  /** No cell belongs to two pairs, and a chart is no query. */
  lemma PairOwns(cells: seq<Cell>, nextId: Id, i: nat, j: nat, id: Id)
    requires UniqueIds(cells, nextId) && i < |Pairs(cells)| && j < |Pairs(cells)|
    requires Pairs(cells)[i].chartCellId == Some(id) && OfPair(Pairs(cells)[j], id)
    ensures j == i && Pairs(cells)[j].sqlCellId != id
  {
    hide Pairs, UniqueIds;
    var pairs := Pairs(cells);
    var a, b := PairPlaces(cells, i, j);
    var k := DrawnPlace(cells, cells[a], pairs[i]);
    hide ReadsPair;
    if pairs[j].sqlCellId == id {
      SqlPlace(cells, cells[b], pairs[j]);
      SamePlace(cells, nextId, b, k);
    }
    if pairs[j].chartCellId == Some(id) {
      var m := DrawnPlace(cells, cells[b], pairs[j]);
      SamePlace(cells, nextId, k, m);
      SamePlace(cells, nextId, a, b);
    }
  }

  lemma SqlPlace(cells: seq<Cell>, c: Cell, pair: CellPair)
    requires ReadsPair(cells, c, pair)
    ensures pair.sqlCellId == c.id
  {
  }

  // ---------- The charts that were there ----------

  predicate DrawsAgain(op: CanvasOp, i: nat)
  {
    op.Update? && op.index == i && op.chart.Some?
  }

  lemma OwnOps(cells: seq<Cell>, nextId: Id, i: nat, id: Id, op: CanvasOp)
    requires UniqueIds(cells, nextId) && i < |Pairs(cells)| && Pairs(cells)[i].chartCellId == Some(id)
    ensures Alters(Pairs(cells), op, id) <==> DrawsAgain(op, i)
    ensures Redraws(Pairs(cells), op, id) <==> DrawsAgain(op, i)
    ensures Deletes(Pairs(cells), op, id) <==> op == Delete(i)
  {
    hide Pairs, UniqueIds;
    if !op.Create? && op.index < |Pairs(cells)| && OfPair(Pairs(cells)[op.index], id) {
      PairOwns(cells, nextId, i, op.index, id);
    }
  }

  /** The chart of a pair that no operation deletes, after a run. */
  lemma ChartAfter(faults: set<nat>, db: Db, ops: seq<CanvasOp>, i: nat, was: Cell) returns (now: Cell)
    requires UniqueIds(db.cells, db.nextId) && OpsOutcome(faults, db, ops).Ok?
    requires i < |Pairs(db.cells)| && was in db.cells && Pairs(db.cells)[i].chartCellId == Some(was.id)
    requires Delete(i) !in ops
    ensures now in OpsOutcome(faults, db, ops).value.0.cells && CellFollows(Pairs(db.cells), ops, was, now)
    ensures forall op :: Alters(Pairs(db.cells), op, was.id) <==> DrawsAgain(op, i)
    ensures forall op :: Redraws(Pairs(db.cells), op, was.id) <==> DrawsAgain(op, i)
  {
    var pairs := Pairs(db.cells);
    hide Pairs, UniqueIds, OpsOutcome, CellFollows, Alters, Redraws, Deletes, DrawsAgain, ApplyAll;
    CellsFollowOperations(faults, db, ops);
    forall op
      ensures Alters(pairs, op, was.id) <==> DrawsAgain(op, i)
      ensures Redraws(pairs, op, was.id) <==> DrawsAgain(op, i)
      ensures Deletes(pairs, op, was.id) <==> op == Delete(i)
    {
      OwnOps(db.cells, db.nextId, i, was.id, op);
    }
    assert !Gone(pairs, ops, was.id);
    now :| now in OpsOutcome(faults, db, ops).value.0.cells && now.id == was.id;
  }

  /** A chart that no operation draws again is as it was. */
  lemma ChartStays(faults: set<nat>, db: Db, ops: seq<CanvasOp>, i: nat, was: Cell)
    requires UniqueIds(db.cells, db.nextId) && OpsOutcome(faults, db, ops).Ok?
    requires i < |Pairs(db.cells)| && was in db.cells && Pairs(db.cells)[i].chartCellId == Some(was.id)
    requires Delete(i) !in ops && forall op :: op in ops ==> !DrawsAgain(op, i)
    ensures was in OpsOutcome(faults, db, ops).value.0.cells
  {
    var pairs := Pairs(db.cells);
    hide Pairs, UniqueIds, OpsOutcome, Alters, Redraws, ApplyAll;
    var now := ChartAfter(faults, db, ops, i, was);
    assert forall k :: 0 <= k < |ops| ==> ops[k] in ops && !Alters(pairs, ops[k], was.id);
    forall k | 0 <= k < |ops|
      ensures !Renames(pairs, ops[k], was.id)
    {
      assert ops[k] in ops;
      NoRename(db, i, was.id, ops[k]);
    }
    assert now.name == was.name && now.content == was.content;
  }

  lemma NoRename(db: Db, i: nat, id: Id, op: CanvasOp)
    requires UniqueIds(db.cells, db.nextId) && i < |Pairs(db.cells)| && Pairs(db.cells)[i].chartCellId == Some(id)
    requires !DrawsAgain(op, i)
    ensures !Renames(Pairs(db.cells), op, id)
  {
    hide Pairs, UniqueIds;
    if op.Update? && op.index < |Pairs(db.cells)| && OfPair(Pairs(db.cells)[op.index], id) {
      PairOwns(db.cells, db.nextId, i, op.index, id);
    }
  }

  /**
   A chart that operations draw again shows what the last of them says: the kind of chart, its source,
   and its columns, functions, order, category or value.
   */
  lemma ChartShowsLastUpdate(faults: set<nat>, db: Db, ops: seq<CanvasOp>, i: nat, was: Cell, k: nat)
    requires UniqueIds(db.cells, db.nextId) && OpsOutcome(faults, db, ops).Ok?
    requires i < |Pairs(db.cells)| && was in db.cells && Pairs(db.cells)[i].chartCellId == Some(was.id)
    requires Delete(i) !in ops && k < |ops| && DrawsAgain(ops[k], i)
    requires forall m :: k < m < |ops| ==> !DrawsAgain(ops[m], i)
    ensures exists now :: now in OpsOutcome(faults, db, ops).value.0.cells && now.id == was.id &&
              now.cellType == was.cellType && now.displayOrder == was.displayOrder &&
              now.content.Some? && Shows(now.content.value, Pairs(db.cells)[i].sqlCellId, ops[k].chart.value)
  {
    var pairs := Pairs(db.cells);
    hide Pairs, UniqueIds, OpsOutcome, Alters, Redraws, Shows, ApplyAll;
    var now := ChartAfter(faults, db, ops, i, was);
    assert LastAlteration(pairs, ops, was.id, k);
    assert SaysAs(pairs, ops[k], was.id, now.content);
  }

  // ---------- The charts on the dashboard ----------

  /** The size asked for, as far as the grid allows: 4 x 3 when nothing is said. */
  predicate SizedAs(l: GridPacker.Layout, chart: PlannedChart)
  {
    GridPacker.Nearest(l.width, GridPacker.Wanted(chart.gridWidth, 4), 4, 12) &&
    GridPacker.Nearest(l.height, GridPacker.Wanted(chart.gridHeight, 3), 3, 6)
  }

  /** The dashboard shows the chart, in its size. */
  predicate OnDashboard(db: Db, id: Id, chart: PlannedChart)
  {
    db.dashboard.Some? && exists l :: l in db.dashboard.value && l.cellId == id && SizedAs(l, chart)
  }

  lemma NearestThroughUnits(size: int, value: Option<i32>, default: int, low: int, high: int)
    requires 0 <= low <= default <= high < GridPacker.U16_MODULUS
    requires GridPacker.Nearest(size, GridPacker.Wanted(ToGridUnits(value), default), low, high)
    ensures GridPacker.Nearest(size, GridPacker.Wanted(value, default), low, high)
  {
    if value.Some? {
      var wanted := ToGridUnits(value).value;
      assert wanted == value.value || (value.value < 0 && wanted == 0) || (value.value >= GridPacker.U16_MODULUS &&
             wanted == GridPacker.U16_MODULUS - 1);
      NearestIs(size, wanted, low, high);
    }
  }

  /** Only one size within the limits is nearest. */
  lemma NearestIs(size: int, wanted: int, low: int, high: int)
    requires GridPacker.Nearest(size, wanted, low, high)
    ensures size == if wanted < low then low else if wanted > high then high else wanted
  {
    var best := if wanted < low then low else if wanted > high then high else wanted;
    assert GridPacker.Distance(size, wanted) <= GridPacker.Distance(best, wanted);
  }

  lemma RequestedSize(l: GridPacker.Layout, id: Id, chart: PlannedChart)
    requires var r := Request(id, chart);
             GridPacker.Nearest(l.width, GridPacker.Wanted(r.width, 4), 4, 12) &&
             GridPacker.Nearest(l.height, GridPacker.Wanted(r.height, 3), 3, 6)
    ensures SizedAs(l, chart)
  {
    hide GridPacker.Nearest, ToGridUnits;
    NearestThroughUnits(l.width, chart.gridWidth, 4, 4, 12);
    NearestThroughUnits(l.height, chart.gridHeight, 3, 3, 6);
  }

  lemma {:induction false} RequestsHave(made: seq<NewCell>, k: nat)
    requires k < |made| && made[k].chart.Some?
    ensures Request(made[k].cell.id, made[k].chart.value) in RequestsOf(made)
  {
    var n := |made| - 1;
    if k < n {
      RequestsHave(made[..n], k);
    }
  }

  lemma AppendedHas(layout: seq<GridPacker.Layout>, removed: seq<Id>, queued: seq<GridPacker.ChartRequest>,
                    after: seq<GridPacker.Layout>, id: Id, chart: PlannedChart)
    requires GridPacker.AppendCharts(layout, removed, queued) == Ok(after) && Request(id, chart) in queued
    ensures exists l :: l in after && l.cellId == id && SizedAs(l, chart)
  {
    var kept := GridPacker.Retained(layout, removed);
    var placed := GridPacker.Placed(GridPacker.Below(kept), queued);
    assert after == kept + placed;
    var k :| 0 <= k < |queued| && queued[k] == Request(id, chart);
    GridPacker.PlacedAsRequested(GridPacker.Below(kept), queued, k);
    hide GridPacker.Retained, GridPacker.Placed, GridPacker.MaxBottom, GridPacker.Nearest, ToGridUnits, SizedAs;
    RequestedSize(placed[k], id, chart);
    assert after[|kept| + k] == placed[k];
  }

  lemma {:induction false} RemovedAre(pairs: seq<CellPair>, ops: seq<CanvasOp>, id: Id)
    ensures id in RemovedBy(pairs, ops) <==>
            exists i: nat :: i < |pairs| && Delete(i) in ops && pairs[i].chartCellId == Some(id)
  {
    if ops != [] {
      var n := |ops| - 1;
      RemovedAre(pairs, ops[..n], id);
      Snoc(ops);
      DeletedNext(ops[..n], ops[n]);
    }
  }

  lemma QueuesAre(faults: set<nat>, db: Db, ops: seq<CanvasOp>)
    requires UniqueIds(db.cells, db.nextId) && OpsOutcome(faults, db, ops).Ok?
    ensures var pairs, after := Pairs(db.cells), OpsOutcome(faults, db, ops).value.0.dashboard;
            var removed, queued := RemovedBy(pairs, ops), RequestsOf(NewCells(db, ops, pairs));
            if queued == [] && removed == [] then after == db.dashboard
            else db.dashboard.Some? && after.Some? &&
                 GridPacker.AppendCharts(db.dashboard.value, removed, queued) == Ok(after.value)
  {
    hide *;
    AllPairsAreOld(db.cells, db.nextId);
    OpsRun(faults, db, ops);
    FollowsRun(faults, db, Pairs(db.cells), ops);
    FollowsCells(db, Pairs(db.cells), ops, ApplyAll(faults, Pairs(db.cells), CanvasStore.Start(db), ops).value);
    CanvasDashboard.DashboardAfter(faults, db, ops);
  }

  lemma KeptEntry(layout: seq<GridPacker.Layout>, removed: seq<Id>, queued: seq<GridPacker.ChartRequest>,
                  after: seq<GridPacker.Layout>, l: GridPacker.Layout)
    requires GridPacker.AppendCharts(layout, removed, queued) == Ok(after) && l in layout
    requires forall r :: r in queued ==> r.cellId != l.cellId
    ensures l in after <==> l.cellId !in removed
  {
    var kept := GridPacker.Retained(layout, removed);
    CanvasDashboard.PlacedIds(GridPacker.Below(kept), queued);
    hide GridPacker.Retained, GridPacker.Placed, GridPacker.MaxBottom;
    assert forall k :: 0 <= k < |queued| ==> queued[k] in queued;
  }

  /** An entry of the dashboard stays, as it was, exactly when no operation deletes the pair of its chart. */
  lemma EntriesStay(faults: set<nat>, db: Db, ops: seq<CanvasOp>, l: GridPacker.Layout)
    requires UniqueIds(db.cells, db.nextId) && OpsOutcome(faults, db, ops).Ok?
    requires db.dashboard.Some? && l in db.dashboard.value && l.cellId < db.nextId
    ensures var pairs, after := Pairs(db.cells), OpsOutcome(faults, db, ops).value.0.dashboard;
            after.Some? &&
            (l in after.value <==>
             !exists i: nat :: i < |pairs| && Delete(i) in ops && pairs[i].chartCellId == Some(l.cellId))
  {
    hide *;
    var pairs, after := Pairs(db.cells), OpsOutcome(faults, db, ops).value.0.dashboard;
    var made := NewCells(db, ops, pairs);
    var removed, queued := RemovedBy(pairs, ops), RequestsOf(made);
    QueuesAre(faults, db, ops);
    RemovedAre(pairs, ops, l.cellId);
    NewIds(db, ops, pairs);
    RequestsAreNew(made, db.nextId);
    if !(queued == [] && removed == []) {
      KeptEntry(db.dashboard.value, removed, queued, after.value, l);
    }
  }

  lemma {:induction false} RequestsAreNew(made: seq<NewCell>, base: Id)
    requires forall c :: c in CellsOf(made) ==> c.id >= base
    ensures forall r :: r in RequestsOf(made) ==> r.cellId >= base
  {
    if made != [] {
      var n := |made| - 1;
      assert CellsOf(made)[n] in CellsOf(made);
      assert forall c :: c in CellsOf(made[..n]) ==> c in CellsOf(made) by {
        assert CellsOf(made[..n]) == CellsOf(made)[..n];
      }
      RequestsAreNew(made[..n], base);
      hide ToGridUnits;
    }
  }

  // ---------- What each new cell says ----------

  lemma {:induction false} MadeHas(pairs: seq<CellPair>, ops: seq<CanvasOp>, id: Id, order: int, k: nat)
    returns (j: nat)
    requires k < |ops|
    ensures var added, made := AddedBy(pairs, ops[..k], ops[k], id + j, order + j), Made(pairs, ops, id, order);
            j + |added| <= |made| && made[j..j + |added|] == added
  {
    hide AddedBy;
    var n := |ops| - 1;
    var before := Made(pairs, ops[..n], id, order);
    var last := AddedBy(pairs, ops[..n], ops[n], id + |before|, order + |before|);
    if k < n {
      assert ops[..n][..k] == ops[..k];
      j := MadeHas(pairs, ops[..n], id, order, k);
      SliceOfConcat(before, last, j, j + |AddedBy(pairs, ops[..k], ops[k], id + j, order + j)|);
    } else {
      j := |before|;
      assert (before + last)[j..j + |last|] == last;
    }
  }

  lemma SliceOfConcat(a: seq<NewCell>, b: seq<NewCell>, i: nat, j: nat)
    requires i <= j <= |a|
    ensures (a + b)[i..j] == a[i..j]
  {
  }

  lemma NewCellAt(faults: set<nat>, db: Db, ops: seq<CanvasOp>, n: nat) returns (left: nat)
    requires UniqueIds(db.cells, db.nextId) && OpsOutcome(faults, db, ops).Ok?
    requires n < |NewCells(db, ops, Pairs(db.cells))|
    ensures var after, made := OpsOutcome(faults, db, ops).value.0, NewCells(db, ops, Pairs(db.cells));
            left == |Left(Pairs(db.cells), ops, db.cells)| &&
            left + |made| == |after.cells| && after.cells[left + n] == made[n].cell
  {
    hide OpsOutcome, Pairs, Left, NewCells, UniqueIds;
    NotebookIs(faults, db, ops);
    left := |Left(Pairs(db.cells), ops, db.cells)|;
  }

  lemma NewChartShown(faults: set<nat>, db: Db, ops: seq<CanvasOp>, n: nat)
    requires UniqueIds(db.cells, db.nextId) && OpsOutcome(faults, db, ops).Ok?
    requires n < |NewCells(db, ops, Pairs(db.cells))| && NewCells(db, ops, Pairs(db.cells))[n].chart.Some?
    ensures var m := NewCells(db, ops, Pairs(db.cells))[n];
            OnDashboard(OpsOutcome(faults, db, ops).value.0, m.cell.id, m.chart.value)
  {
    hide OpsOutcome, Pairs, NewCells, UniqueIds, RemovedBy, RequestsOf, SizedAs, Request, GridPacker.AppendCharts;
    var pairs, after := Pairs(db.cells), OpsOutcome(faults, db, ops).value.0;
    var made := NewCells(db, ops, pairs);
    QueuesAre(faults, db, ops);
    RequestsHave(made, n);
    AppendedHas(db.dashboard.value, RemovedBy(pairs, ops), RequestsOf(made), after.dashboard.value,
                made[n].cell.id, made[n].chart.value);
  }

  lemma MadeOf(db: Db, ops: seq<CanvasOp>, k: nat) returns (j: nat)
    requires k < |ops|
    ensures var order, made := MaxOrder(db.cells) + 1, NewCells(db, ops, Pairs(db.cells));
            var added := AddedBy(Pairs(db.cells), ops[..k], ops[k], db.nextId + j, order + j);
            j + |added| <= |made| && forall m :: 0 <= m < |added| ==> added[m] == made[j + m]
  {
    hide Pairs, MaxOrder, AddedBy, Made;
    var order, made := MaxOrder(db.cells) + 1, NewCells(db, ops, Pairs(db.cells));
    j := MadeHas(Pairs(db.cells), ops, db.nextId, order, k);
    var added := AddedBy(Pairs(db.cells), ops[..k], ops[k], db.nextId + j, order + j);
    forall m | 0 <= m < |added|
      ensures added[m] == made[j + m]
    {
      assert made[j..j + |added|][m] == made[j + m];
    }
  }

  /** The cells that operation k adds are in the notebook, and on the dashboard if they are charts. */
  lemma AddedIsThere(faults: set<nat>, db: Db, ops: seq<CanvasOp>, k: nat) returns (id: Id, order: int, at: nat)
    requires UniqueIds(db.cells, db.nextId) && OpsOutcome(faults, db, ops).Ok? && k < |ops|
    ensures var added, after := AddedBy(Pairs(db.cells), ops[..k], ops[k], id, order),
                                OpsOutcome(faults, db, ops).value.0;
            id >= db.nextId && (added != [] ==> at + |added| <= |after.cells|) &&
            forall m :: 0 <= m < |added| ==>
              after.cells[at + m] == added[m].cell &&
              (added[m].chart.Some? ==> OnDashboard(after, added[m].cell.id, added[m].chart.value))
  {
    hide *;
    var j := MadeOf(db, ops, k);
    id, order, at := db.nextId + j, MaxOrder(db.cells) + 1 + j, |Left(Pairs(db.cells), ops, db.cells)| + j;
    var added, after := AddedBy(Pairs(db.cells), ops[..k], ops[k], id, order), OpsOutcome(faults, db, ops).value.0;
    var made := NewCells(db, ops, Pairs(db.cells));
    forall m | 0 <= m < |added|
      ensures |after.cells| >= at + |added| && after.cells[at + m] == added[m].cell
      ensures added[m].chart.Some? ==> OnDashboard(after, added[m].cell.id, added[m].chart.value)
    {
      assert added[m] == made[j + m];
      var left := NewCellAt(faults, db, ops, j + m);
      if added[m].chart.Some? {
        NewChartShown(faults, db, ops, j + m);
      }
    }
    if added != [] {
      assert added[0] == made[j];
    }
  }

  /** The query of an operation that creates one, and right after it its chart, as planned. */
  predicate Created(after: Db, base: Id, op: CanvasOp, at: nat)
    requires op.Create? && at < |after.cells|
  {
    var c := after.cells[at];
    c.id >= base && c.cellType == SqlCell && c.name == op.title && c.content == Some(Plain(op.sql)) &&
    (op.chart.Some? ==>
       at + 1 < |after.cells| &&
       var d := after.cells[at + 1];
       d.id == c.id + 1 && d.cellType == ChartCell && d.name == op.title && d.displayOrder == c.displayOrder + 1 &&
       d.content.Some? && Shows(d.content.value, c.id, op.chart.value) && OnDashboard(after, d.id, op.chart.value))
  }

  /** Every creation of a run that succeeds is there. */
  lemma CreationIsThere(faults: set<nat>, db: Db, ops: seq<CanvasOp>, k: nat)
    requires UniqueIds(db.cells, db.nextId) && OpsOutcome(faults, db, ops).Ok? && k < |ops| && ops[k].Create?
    ensures var after := OpsOutcome(faults, db, ops).value.0;
            exists at: nat :: at < |after.cells| && Created(after, db.nextId, ops[k], at)
  {
    hide OpsOutcome, Pairs, UniqueIds, Shows, OnDashboard, ChartContentOf;
    var after, op := OpsOutcome(faults, db, ops).value.0, ops[k];
    var id, order, at := AddedIsThere(faults, db, ops, k);
    var added := AddedBy(Pairs(db.cells), ops[..k], op, id, order);
    assert after.cells[at + 0] == added[0].cell;
    if op.chart.Some? {
      ContentShows(id, op.chart.value);
      assert added[1] == NewChart(id + 1, id, op.title, op.chart.value, order + 1);
      assert after.cells[at + 1] == added[1].cell;
    }
    assert Created(after, db.nextId, op, at);
  }

  /** A chart given to a cell read without one. */
  predicate Given(after: Db, base: Id, pair: CellPair, op: CanvasOp, d: Cell)
    requires op.Update? && op.chart.Some?
  {
    d.id >= base && d.cellType == ChartCell && d.name == Some(if op.title.Some? then op.title.value else pair.title) &&
    d.content.Some? && Shows(d.content.value, pair.sqlCellId, op.chart.value) &&
    OnDashboard(after, d.id, op.chart.value)
  }

  /** Every update that draws on a cell without a chart, not deleted before, gives it one as planned. */
  lemma GivenChartIsThere(faults: set<nat>, db: Db, ops: seq<CanvasOp>, k: nat)
    requires UniqueIds(db.cells, db.nextId) && OpsOutcome(faults, db, ops).Ok? && k < |ops|
    requires ops[k].Update? && ops[k].chart.Some? && ops[k].index < |Pairs(db.cells)|
    requires Pairs(db.cells)[ops[k].index].chartCellId.None? && Delete(ops[k].index) !in ops[..k]
    ensures var after := OpsOutcome(faults, db, ops).value.0;
            exists d :: d in after.cells && Given(after, db.nextId, Pairs(db.cells)[ops[k].index], ops[k], d)
  {
    hide OpsOutcome, Pairs, UniqueIds, Shows, OnDashboard, ChartContentOf;
    var after, op, pair := OpsOutcome(faults, db, ops).value.0, ops[k], Pairs(db.cells)[ops[k].index];
    var id, order, at := AddedIsThere(faults, db, ops, k);
    var added := AddedBy(Pairs(db.cells), ops[..k], op, id, order);
    ContentShows(pair.sqlCellId, op.chart.value);
    assert after.cells[at + 0] == added[0].cell;
    assert Given(after, db.nextId, pair, op, after.cells[at]);
  }
}
