/**
 Applying a resolved canvas plan: backend/src/canvas/service.rs, with the cell operations of
 backend/src/cell/service.rs and the dashboard of backend/src/dashboard/service.rs. Every call
 to the store may fail: calls are numbered, and `faults` says which fail.
 */
module CanvasStore {
  import opened Wrappers
  import opened Sequences
  import opened CanvasPlan
  import opened Text
  import ChartQuery
  import GridPacker

  const MAX_CELLS_PER_NOTEBOOK := 60

  type Id = nat

  datatype CellType = TextCell | CodeCell | MarkdownCell | SqlCell | ChartCell

  datatype ChartContent =
    | BarContent(axis: ChartQuery.AxisChartContent)
    | LineContent(axis: ChartQuery.AxisChartContent)
    | PieContent(sourceId: Id, category: string, value: string, aggregateFunction: ChartQuery.AggregateFunction)
    | MetricContent(sourceId: Id, decimalPrecision: nat, suffix: Option<string>)
  {
    /** The SQL cell the chart draws. */
    function CellId(): Id
    {
      match this
      case BarContent(axis) => axis.cellId
      case LineContent(axis) => axis.cellId
      case PieContent(id, _, _, _) => id
      case MetricContent(id, _, _) => id
    }
  }

  function ChartContentOf(cellId: Id, chart: PlannedChart): (content: ChartContent)
    ensures content.CellId() == cellId
  {
    match chart.spec
    case Bar(axis) => BarContent(ChartQuery.AxisContent(cellId, axis))
    case Line(axis) => LineContent(ChartQuery.AxisContent(cellId, axis))
    case Pie(category, value, f) => PieContent(cellId, category, value, f)
    case Metric(precision, suffix) => MetricContent(cellId, precision, suffix)
  }

  /** The text of a cell: chart content, or anything that does not parse as such. */
  datatype Content = Plain(text: string) | Chart(chart: ChartContent)

  datatype Cell = Cell(id: Id, cellType: CellType, name: Option<string>, content: Option<Content>, displayOrder: int)
  {
    predicate IsSql()
    {
      cellType == SqlCell
    }

    predicate IsChart()
    {
      cellType == ChartCell && content.Some? && content.value.Chart?
    }

    predicate Draws(source: Id)
    {
      IsChart() && content.value.chart.CellId() == source
    }

    function Query(): string
    {
      if content.Some? && content.value.Plain? then content.value.text else ""
    }
  }

  datatype StoreError = StoreFailure | NotebookFull | CellNotFound | DashboardMissing | DashboardFull | NoCells

  /** What the transaction sees of one canvas: its cells in display order, and its dashboard. */
  datatype Db = Db(cells: seq<Cell>, dashboard: Option<seq<GridPacker.Layout>>, nextId: Id, calls: nat)

  // ---------- Single store operations ----------

  predicate HasCell(cells: seq<Cell>, id: Id)
  {
    exists k :: 0 <= k < |cells| && cells[k].id == id
  }

  function Edit(cell: Cell, name: Option<string>, content: Option<Content>): Cell
  {
    cell.(name := if name.Some? then name else cell.name, content := if content.Some? then content else cell.content)
  }

  function Edited(cells: seq<Cell>, id: Id, name: Option<string>, content: Option<Content>): (r: seq<Cell>)
    ensures |r| == |cells|
  {
    seq(|cells|, k requires 0 <= k < |cells| => if cells[k].id == id then Edit(cells[k], name, content) else cells[k])
  }

  function Without(cells: seq<Cell>, id: Id): seq<Cell>
  {
    if cells == [] then []
    else Without(cells[..|cells| - 1], id) + if cells[|cells| - 1].id == id then [] else [cells[|cells| - 1]]
  }

  function SaveCell(faults: set<nat>, db: Db, cellType: CellType, name: Option<string>, content: Content,
      order: int): Result<Db, StoreError>
  {
    if db.calls in faults then Err(StoreFailure)
    else if |db.cells| >= MAX_CELLS_PER_NOTEBOOK then Err(NotebookFull)
    else if db.calls + 1 in faults then Err(StoreFailure)
    else
      Ok(db.(cells := db.cells + [Cell(db.nextId, cellType, name, Some(content), order)],
             nextId := db.nextId + 1, calls := db.calls + 2))
  }

  function UpdateContent(faults: set<nat>, db: Db, id: Id, name: Option<string>, content: Option<Content>):
      Result<Db, StoreError>
  {
    if db.calls in faults then Err(StoreFailure)
    else if !HasCell(db.cells, id) then Err(CellNotFound)
    else if db.calls + 1 in faults then Err(StoreFailure)
    else Ok(db.(cells := Edited(db.cells, id, name, content), calls := db.calls + 2))
  }

  function Remove(faults: set<nat>, db: Db, id: Id): Result<Db, StoreError>
  {
    if db.calls in faults then Err(StoreFailure)
    else Ok(db.(cells := Without(db.cells, id), calls := db.calls + 1))
  }

  function AppendToDashboard(faults: set<nat>, db: Db, removed: seq<Id>,
      queued: seq<GridPacker.ChartRequest>): Result<Db, StoreError>
  {
    if db.calls in faults then Err(StoreFailure)
    else if db.dashboard.None? then Err(DashboardMissing)
    else
      match GridPacker.AppendCharts(db.dashboard.value, removed, queued)
      case Err(_) => Err(DashboardFull)
      case Ok(layout) =>
        if db.calls + 1 in faults then Err(StoreFailure)
        else Ok(db.(dashboard := Some(layout), calls := db.calls + 2))
  }

  // ---------- Pairing SQL cells with their charts ----------

  datatype CellPair = CellPair(sqlCellId: Id, chartCellId: Option<Id>, title: string, sql: string)

  /** The last chart among the first n cells that draws this source. */
  function ChartFor(cells: seq<Cell>, n: nat, source: Id): Option<Id>
    requires n <= |cells|
  {
    if n == 0 then None
    else if cells[n - 1].Draws(source) then Some(cells[n - 1].id)
    else ChartFor(cells, n - 1, source)
  }

  function PairOf(cells: seq<Cell>, cell: Cell): CellPair
  {
    CellPair(cell.id, ChartFor(cells, |cells|, cell.id), if cell.name.Some? then cell.name.value else "", cell.Query())
  }

  function PairsOf(cells: seq<Cell>, n: nat): seq<CellPair>
    requires n <= |cells|
  {
    if n == 0 then []
    else if cells[n - 1].IsSql() then PairsOf(cells, n - 1) + [PairOf(cells, cells[n - 1])]
    else PairsOf(cells, n - 1)
  }

  function Pairs(cells: seq<Cell>): seq<CellPair>
  {
    PairsOf(cells, |cells|)
  }

  method PairCells(cells: seq<Cell>) returns (pairs: seq<CellPair>)
    ensures pairs == Pairs(cells)
  {
    var charts: map<Id, Id> := map[];
    for k := 0 to |cells|
      invariant forall source :: source in charts <==> ChartFor(cells, k, source).Some?
      invariant forall source :: source in charts ==> ChartFor(cells, k, source) == Some(charts[source])
    {
      if cells[k].cellType != ChartCell || cells[k].content.None? || !cells[k].content.value.Chart? {
        continue;
      }
      charts := charts[cells[k].content.value.chart.CellId() := cells[k].id];
    }
    pairs := [];
    for k := 0 to |cells|
      invariant pairs == PairsOf(cells, k)
    {
      if cells[k].cellType == SqlCell {
        var chart := if cells[k].id in charts then Some(charts[cells[k].id]) else None;
        var title := if cells[k].name.Some? then cells[k].name.value else "";
        pairs := pairs + [CellPair(cells[k].id, chart, title, cells[k].Query())];
      }
    }
  }

  // ---------- Applying the operations ----------

  datatype Changes = Changes(added: nat, updated: nat, removed: nat)

  /** Where `apply_ops` stands between two operations. */
  datatype Progress = Progress(
    db: Db, order: int, changes: Changes,
    queued: seq<GridPacker.ChartRequest>, removedIds: seq<Id>, deleted: set<nat>)

  function Request(cellId: Id, chart: PlannedChart): GridPacker.ChartRequest
  {
    GridPacker.ChartRequest(cellId, ToGridUnits(chart.gridWidth), ToGridUnits(chart.gridHeight))
  }

  function AddChart(faults: set<nat>, p: Progress, source: Id, title: Option<string>,
      chart: PlannedChart): Result<Progress, StoreError>
  {
    match SaveCell(faults, p.db, ChartCell, title, Chart(ChartContentOf(source, chart)), p.order)
    case Err(e) => Err(e)
    case Ok(db) => Ok(p.(db := db, order := p.order + 1, queued := p.queued + [Request(p.db.nextId, chart)]))
  }

  function AddPair(faults: set<nat>, p: Progress, title: Option<string>, sql: string,
      chart: Option<PlannedChart>): Result<Progress, StoreError>
  {
    match SaveCell(faults, p.db, SqlCell, title, Plain(sql), p.order)
    case Err(e) => Err(e)
    case Ok(db) =>
      var next := p.(db := db, order := p.order + 1);
      if chart.None? then Ok(next) else AddChart(faults, next, p.db.nextId, title, chart.value)
  }

  function UpdateSql(faults: set<nat>, p: Progress, pair: CellPair, title: Option<string>,
      sql: Option<string>): Result<Progress, StoreError>
  {
    if title.None? && sql.None? then Ok(p)
    else
      match UpdateContent(faults, p.db, pair.sqlCellId, title, if sql.Some? then Some(Plain(sql.value)) else None)
      case Err(e) => Err(e)
      case Ok(db) => Ok(p.(db := db))
  }

  function UpdateChart(faults: set<nat>, p: Progress, pair: CellPair, title: Option<string>,
      chart: PlannedChart): Result<Progress, StoreError>
  {
    if pair.chartCellId.None? then
      AddChart(faults, p, pair.sqlCellId, if title.Some? then title else Some(pair.title), chart)
    else
      match UpdateContent(faults, p.db, pair.chartCellId.value, title,
        Some(Chart(ChartContentOf(pair.sqlCellId, chart))))
      case Err(e) => Err(e)
      case Ok(db) => Ok(p.(db := db))
  }

  function UpdatePair(
    faults: set<nat>, p: Progress, pair: CellPair, title: Option<string>, sql: Option<string>,
    chart: Option<PlannedChart>):
    Result<Progress, StoreError>
  {
    match UpdateSql(faults, p, pair, title, sql)
    case Err(e) => Err(e)
    case Ok(next) => if chart.None? then Ok(next) else UpdateChart(faults, next, pair, title, chart.value)
  }

  function RemoveChart(faults: set<nat>, p: Progress, pair: CellPair): Result<Progress, StoreError>
  {
    if pair.chartCellId.None? then Ok(p)
    else
      match Remove(faults, p.db, pair.chartCellId.value)
      case Err(e) => Err(e)
      case Ok(db) => Ok(p.(db := db, removedIds := p.removedIds + [pair.chartCellId.value]))
  }

  function RemovePair(faults: set<nat>, p: Progress, pair: CellPair): Result<Progress, StoreError>
  {
    match RemoveChart(faults, p, pair)
    case Err(e) => Err(e)
    case Ok(next) =>
      match Remove(faults, next.db, pair.sqlCellId)
      case Err(e) => Err(e)
      case Ok(db) => Ok(next.(db := db))
  }

  function ApplyOne(faults: set<nat>, pairs: seq<CellPair>, p: Progress, op: CanvasOp): Result<Progress, StoreError>
  {
    match op
    case Create(title, sql, chart) =>
      (match AddPair(faults, p, title, sql, chart)
       case Err(e) => Err(e)
       case Ok(next) => Ok(next.(changes := next.changes.(added := next.changes.added + 1))))
    case Update(index, title, sql, chart) =>
      if index in p.deleted || index >= |pairs| then Ok(p)
      else (
        match UpdatePair(faults, p, pairs[index], title, sql, chart)
        case Err(e) => Err(e)
        case Ok(next) => Ok(next.(changes := next.changes.(updated := next.changes.updated + 1))))
    case Delete(index) =>
      if index in p.deleted || index >= |pairs| then Ok(p)
      else
        match RemovePair(faults, p, pairs[index])
        case Err(e) => Err(e)
        case Ok(next) =>
          Ok(next.(deleted := next.deleted + {index}, changes := next.changes.(removed := next.changes.removed + 1)))
  }

  function ApplyAll(faults: set<nat>, pairs: seq<CellPair>, start: Progress, ops: seq<CanvasOp>):
      Result<Progress, StoreError>
  {
    if ops == [] then Ok(start)
    else
      match ApplyAll(faults, pairs, start, ops[..|ops| - 1])
      case Err(e) => Err(e)
      case Ok(p) => ApplyOne(faults, pairs, p, ops[|ops| - 1])
  }

  function MaxOrder(cells: seq<Cell>): (m: int)
    ensures cells != [] ==> exists k :: 0 <= k < |cells| && cells[k].displayOrder == m
    ensures forall k :: 0 <= k < |cells| ==> cells[k].displayOrder <= m
    ensures cells == [] ==> m == -1
  {
    if cells == [] then -1
    else if |cells| == 1 then cells[0].displayOrder
    else
      var m := MaxOrder(cells[..|cells| - 1]);
      if cells[|cells| - 1].displayOrder > m then cells[|cells| - 1].displayOrder else m
  }

  function Start(db: Db): Progress
  {
    Progress(db.(calls := db.calls + 1), MaxOrder(db.cells) + 1, Changes(0, 0, 0), [], [], {})
  }

  function OpsOutcome(faults: set<nat>, db: Db, ops: seq<CanvasOp>): Result<(Db, Changes), StoreError>
  {
    if db.calls in faults then Err(StoreFailure)
    else
      match ApplyAll(faults, Pairs(db.cells), Start(db), ops)
      case Err(e) => Err(e)
      case Ok(p) =>
        if p.queued == [] && p.removedIds == [] then Ok((p.db, p.changes))
        else
          match AppendToDashboard(faults, p.db, p.removedIds, p.queued)
          case Err(e) => Err(e)
          case Ok(db) => Ok((db, p.changes))
  }

  // ---------- The transaction ----------

  /** A transaction works on what it has read; nothing reaches the store before it commits. */
  class Transaction {
    const faults: set<nat>
    var cells: seq<Cell>
    var dashboard: Option<seq<GridPacker.Layout>>
    var nextId: Id
    var calls: nat

    constructor (faults: set<nat>, db: Db)
      ensures this.faults == faults && View() == db
    {
      this.faults := faults;
      cells, dashboard, nextId, calls := db.cells, db.dashboard, db.nextId, db.calls;
    }

    function View(): Db
      reads this
    {
      Db(cells, dashboard, nextId, calls)
    }

    method Call() returns (ok: bool)
      modifies this
      ensures ok == (old(calls) !in faults) && View() == old(View()).(calls := old(calls) + 1)
    {
      ok := calls !in faults;
      calls := calls + 1;
    }

    method ExecuteCreateCell(cellType: CellType, name: Option<string>, content: Content, order: int)
        returns (r: Result<Id, StoreError>)
      modifies this
      ensures match SaveCell(faults, old(View()), cellType, name, content, order)
              case Ok(db) => r == Ok(old(nextId)) && View() == db
              case Err(e) => r == Err(e)
    {
      var counted := Call();
      if !counted {
        return Err(StoreFailure);
      }
      if |cells| >= MAX_CELLS_PER_NOTEBOOK {
        return Err(NotebookFull);
      }
      var saved := Call();
      if !saved {
        return Err(StoreFailure);
      }
      r := Ok(nextId);
      cells := cells + [Cell(nextId, cellType, name, Some(content), order)];
      nextId := nextId + 1;
    }

    method UpdateCellContent(id: Id, name: Option<string>, content: Option<Content>) returns (r: Result<(), StoreError>)
      modifies this
      ensures match UpdateContent(faults, old(View()), id, name, content)
              case Ok(db) => r == Ok(()) && View() == db
              case Err(e) => r == Err(e)
    {
      var read := Call();
      if !read {
        return Err(StoreFailure);
      }
      if !HasCell(cells, id) {
        return Err(CellNotFound);
      }
      var written := Call();
      if !written {
        return Err(StoreFailure);
      }
      cells := Edited(cells, id, name, content);
      return Ok(());
    }

    method DeleteCell(id: Id) returns (r: Result<(), StoreError>)
      modifies this
      ensures match Remove(faults, old(View()), id)
              case Ok(db) => r == Ok(()) && View() == db
              case Err(e) => r == Err(e)
    {
      var ok := Call();
      if !ok {
        return Err(StoreFailure);
      }
      cells := Without(cells, id);
      return Ok(());
    }

    method AppendDashboardCharts(removed: seq<Id>, queued: seq<GridPacker.ChartRequest>)
        returns (r: Result<(), StoreError>)
      modifies this
      ensures match AppendToDashboard(faults, old(View()), removed, queued)
              case Ok(db) => r == Ok(()) && View() == db
              case Err(e) => r == Err(e)
    {
      var read := Call();
      if !read {
        return Err(StoreFailure);
      }
      if dashboard.None? {
        return Err(DashboardMissing);
      }
      var layout := GridPacker.AppendDashboardCharts(dashboard.value, removed, queued);
      if layout.Err? {
        return Err(DashboardFull);
      }
      var written := Call();
      if !written {
        return Err(StoreFailure);
      }
      dashboard := Some(layout.value);
      return Ok(());
    }

    /** The id of the new chart cell, and the display order after it. */
    method CreateChartCell(order: int, title: Option<string>, content: Content)
        returns (r: Result<Id, StoreError>, next: int)
      modifies this
      ensures match SaveCell(faults, old(View()), ChartCell, title, content, order)
              case Ok(db) => r == Ok(old(nextId)) && View() == db && next == order + 1
              case Err(e) => r == Err(e)
    {
      next := order;
      r := ExecuteCreateCell(ChartCell, title, content, order);
      if r.Ok? {
        next := next + 1;
      }
    }

    /** A request to place the chart, if there is one, and the display order after the pair. */
    method CreatePair(ghost p: Progress, order: int, title: Option<string>, sql: string, chart: Option<PlannedChart>)
      returns (r: Result<Option<GridPacker.ChartRequest>, StoreError>, next: int)
      requires p.db == View() && p.order == order
      modifies this
      ensures match AddPair(faults, p, title, sql, chart)
              case Ok(q) => r.Ok? && View() == q.db && next == q.order &&
                            q == p.(db := q.db, order := q.order,
                                    queued := p.queued + if r.value.Some? then [r.value.value] else [])
              case Err(e) => r == Err(e)
    {
      next := order;
      var sqlCell := ExecuteCreateCell(SqlCell, title, Plain(sql), order);
      if sqlCell.Err? {
        return Err(sqlCell.error), next;
      }
      next := next + 1;
      if chart.None? {
        return Ok(None), next;
      }
      var chartCell, after := CreateChartCell(next, title, Chart(ChartContentOf(sqlCell.value, chart.value)));
      if chartCell.Err? {
        return Err(chartCell.error), after;
      }
      return Ok(Some(Request(chartCell.value, chart.value))), after;
    }

    /** The update of one pair; a chart for a cell without one is a new cell, to be placed. */
    method UpdateCells(ghost p: Progress, order: int, pair: CellPair, title: Option<string>, sql: Option<string>,
        chart: Option<PlannedChart>)
      returns (r: Result<Option<GridPacker.ChartRequest>, StoreError>, next: int)
      requires p.db == View() && p.order == order
      modifies this
      ensures match UpdatePair(faults, p, pair, title, sql, chart)
              case Ok(q) => r.Ok? && View() == q.db && next == q.order &&
                            q == p.(db := q.db, order := q.order,
                                    queued := p.queued + if r.value.Some? then [r.value.value] else [])
              case Err(e) => r == Err(e)
    {
      next := order;
      if title.Some? || sql.Some? {
        var updated := UpdateCellContent(pair.sqlCellId, title, if sql.Some? then Some(Plain(sql.value)) else None);
        if updated.Err? {
          return Err(updated.error), next;
        }
      }
      if chart.None? {
        return Ok(None), next;
      }
      var content := Chart(ChartContentOf(pair.sqlCellId, chart.value));
      if pair.chartCellId.Some? {
        var updated := UpdateCellContent(pair.chartCellId.value, title, Some(content));
        return if updated.Ok? then Ok(None) else Err(updated.error), next;
      }
      var chartCell, after := CreateChartCell(next, if title.Some? then title else Some(pair.title), content);
      if chartCell.Err? {
        return Err(chartCell.error), after;
      }
      return Ok(Some(Request(chartCell.value, chart.value))), after;
    }

    /** The deletion of one pair; returns the chart cell deleted with it. */
    method DeleteCells(ghost p: Progress, pair: CellPair) returns (r: Result<Option<Id>, StoreError>)
      requires p.db == View()
      modifies this
      ensures match RemovePair(faults, p, pair)
              case Ok(q) => r == Ok(pair.chartCellId) && View() == q.db &&
                            q == p.(db := q.db, removedIds := p.removedIds +
                                    if pair.chartCellId.Some? then [pair.chartCellId.value] else [])
              case Err(e) => r == Err(e)
    {
      if pair.chartCellId.Some? {
        var deleted := DeleteCell(pair.chartCellId.value);
        if deleted.Err? {
          return Err(deleted.error);
        }
      }
      var deleted := DeleteCell(pair.sqlCellId);
      if deleted.Err? {
        return Err(deleted.error);
      }
      return Ok(pair.chartCellId);
    }

    method ApplyOps(ops: seq<CanvasOp>) returns (r: Result<Changes, StoreError>)
      modifies this
      ensures match OpsOutcome(faults, old(View()), ops)
              case Ok((db, changes)) => r == Ok(changes) && View() == db
              case Err(e) => r == Err(e)
    {
      hide AddPair, UpdatePair, RemovePair, AppendToDashboard, PairsOf, MaxOrder;
      ghost var start := Start(View());
      var read := Call();
      if !read {
        return Err(StoreFailure);
      }
      var order := MaxOrder(cells) + 1;
      var pairs := PairCells(cells);
      var changes := Changes(0, 0, 0);
      var queued: seq<GridPacker.ChartRequest> := [];
      var removedIds: seq<Id> := [];
      var deleted: set<nat> := {};
      for k := 0 to |ops|
        invariant ApplyAll(faults, pairs, start, ops[..k]) ==
                  Ok(Progress(View(), order, changes, queued, removedIds, deleted))
      {
        ghost var p := Progress(View(), order, changes, queued, removedIds, deleted);
        ApplyStep(faults, pairs, start, ops, k);
        Unit(queued);
        Unit(removedIds);
        var op := ops[k];
        if !op.Create? && op.index in deleted {
          continue;
        }
        match op
        case Create(title, sql, chart) =>
          var created, next := CreatePair(p, order, title, sql, chart);
          if created.Err? {
            return Err(created.error);
          }
          order := next;
          if created.value.Some? {
            queued := queued + [created.value.value];
          }
          changes := changes.(added := changes.added + 1);
        case Update(index, title, sql, chart) =>
          if index >= |pairs| {
            continue;
          }
          var updated, next := UpdateCells(p, order, pairs[index], title, sql, chart);
          if updated.Err? {
            return Err(updated.error);
          }
          order := next;
          if updated.value.Some? {
            queued := queued + [updated.value.value];
          }
          changes := changes.(updated := changes.updated + 1);
        case Delete(index) =>
          if index >= |pairs| {
            continue;
          }
          var removed := DeleteCells(p, pairs[index]);
          if removed.Err? {
            return Err(removed.error);
          }
          if removed.value.Some? {
            removedIds := removedIds + [removed.value.value];
          }
          deleted := deleted + {index};
          changes := changes.(removed := changes.removed + 1);
      }
      assert ops[..|ops|] == ops;
      if queued != [] || removedIds != [] {
        var appended := AppendDashboardCharts(removedIds, queued);
        if appended.Err? {
          return Err(appended.error);
        }
      }
      return Ok(changes);
    }
  }

  lemma {:induction false} ApplyErrorStays(faults: set<nat>, pairs: seq<CellPair>, start: Progress,
      ops: seq<CanvasOp>, k: nat)
    requires k <= |ops| && ApplyAll(faults, pairs, start, ops[..k]).Err?
    ensures ApplyAll(faults, pairs, start, ops) == ApplyAll(faults, pairs, start, ops[..k])
    decreases |ops|
  {
    hide ApplyOne;
    if k < |ops| {
      var n := |ops| - 1;
      assert ops[..n][..k] == ops[..k];
      ApplyErrorStays(faults, pairs, start, ops[..n], k);
    } else {
      assert ops[..k] == ops;
    }
  }

  lemma ApplyStep(faults: set<nat>, pairs: seq<CellPair>, start: Progress, ops: seq<CanvasOp>, k: nat)
    requires k < |ops| && ApplyAll(faults, pairs, start, ops[..k]).Ok?
    ensures var one := ApplyOne(faults, pairs, ApplyAll(faults, pairs, start, ops[..k]).value, ops[k]);
            ApplyAll(faults, pairs, start, ops[..k + 1]) == one &&
            (one.Err? ==> ApplyAll(faults, pairs, start, ops) == one)
  {
    hide ApplyOne;
    assert ops[..k + 1][..k] == ops[..k];
    if ApplyAll(faults, pairs, start, ops[..k + 1]).Err? {
      ApplyErrorStays(faults, pairs, start, ops, k + 1);
    }
  }

  // ---------- The store ----------

  /** A canvas with its notebook's cells and its dashboard, either of which may be missing. */
  datatype Canvas = Canvas(
    name: string, description: Option<string>, hasNotebook: bool,
    cells: seq<Cell>, dashboard: Option<seq<GridPacker.Layout>>)

  datatype State = State(canvases: map<Id, Canvas>, nextId: Id)

  datatype Summary = Summary(canvasId: Id, name: string, description: Option<string>, reused: bool, changes: Changes)

  /** The target, if reading it and its notebook works; the calls made. */
  function ResolveExisting(faults: set<nat>, state: State, target: Option<Id>, calls: nat): (Option<Id>, nat)
  {
    if target.None? then (None, calls)
    else if calls in faults || target.value !in state.canvases then (None, calls + 1)
    else if calls + 1 in faults || !state.canvases[target.value].hasNotebook then (None, calls + 2)
    else (target, calls + 2)
  }

  /** The canvas to work on: the target, or a new one with an empty notebook and dashboard. */
  function Opened(faults: set<nat>, state: State, name: string, description: string, target: Option<Id>):
    Result<(Id, Canvas, bool, Db), StoreError>
  {
    if 0 in faults then Err(StoreFailure)
    else
      var (existing, calls) := ResolveExisting(faults, state, target, 1);
      if existing.Some? && existing.value in state.canvases then
        var canvas := state.canvases[existing.value];
        Ok((existing.value, canvas, true, Db(canvas.cells, canvas.dashboard, state.nextId, calls)))
      else if calls in faults || calls + 1 in faults || calls + 2 in faults then Err(StoreFailure)
      else
        var canvas := Canvas(name, NonBlank(description), true, [], Some([]));
        Ok((state.nextId, canvas, false, Db([], Some([]), state.nextId + 1, calls + 3)))
  }

  function Closed(faults: set<nat>, state: State, id: Id, canvas: Canvas, reused: bool, db: Db, changes: Changes,
      name: string, description: string):
    Result<(State, Summary), StoreError>
  {
    if !reused && changes.added == 0 then Err(NoCells)
    else if db.calls in faults || db.calls + 1 in faults then Err(StoreFailure)
    else
      var newName := if NonBlank(name).Some? then NonBlank(name).value else canvas.name;
      var newDescription := if NonBlank(description).Some? then NonBlank(description) else canvas.description;
      var stored := Canvas(newName, newDescription, canvas.hasNotebook, db.cells, db.dashboard);
      Ok((State(state.canvases[id := stored], db.nextId),
          Summary(id, newName, newDescription, reused, changes)))
  }

  /** The committed state of a plan, or why nothing is committed. */
  function PlanOutcome(faults: set<nat>, state: State, name: string, description: string, target: Option<Id>,
      ops: seq<CanvasOp>):
    Result<(State, Summary), StoreError>
  {
    match Opened(faults, state, name, description, target)
    case Err(e) => Err(e)
    case Ok((id, canvas, reused, db)) =>
      match OpsOutcome(faults, db, ops)
      case Err(e) => Err(e)
      case Ok((db, changes)) => Closed(faults, state, id, canvas, reused, db, changes, name, description)
  }

  class Store {
    var canvases: map<Id, Canvas>
    var nextId: Id

    function View(): State
      reads this
    {
      State(canvases, nextId)
    }

    /** All or nothing: an error leaves every canvas as it was. */
    method ApplyCanvasPlan(faults: set<nat>, name: string, description: string, target: Option<Id>, ops: seq<CanvasOp>)
      returns (r: Result<Summary, StoreError>)
      modifies this
      ensures match PlanOutcome(faults, old(View()), name, description, target, ops)
              case Ok((state, summary)) => r == Ok(summary) && View() == state
              case Err(e) => r == Err(e) && View() == old(View())
    {
      hide NonBlank, Opened, OpsOutcome;
      var base := Opened(faults, View(), name, description, target);
      if base.Err? {
        return Err(base.error);
      }
      var (id, canvas, reused, db) := base.value;
      var txn := new Transaction(faults, db);
      var changes := txn.ApplyOps(ops);
      if changes.Err? {
        return Err(changes.error);
      }
      assert PlanOutcome(faults, View(), name, description, target, ops) ==
             Closed(faults, View(), id, canvas, reused, txn.View(), changes.value, name, description);
      hide PlanOutcome;
      if !reused && changes.value.added == 0 {
        return Err(NoCells);
      }
      var newName := if NonBlank(name).Some? then NonBlank(name).value else canvas.name;
      var newDescription := if NonBlank(description).Some? then NonBlank(description) else canvas.description;
      var updated := txn.Call();
      if !updated {
        return Err(StoreFailure);
      }
      var committed := txn.Call();
      if !committed {
        return Err(StoreFailure);
      }
      canvases := canvases[id := Canvas(newName, newDescription, canvas.hasNotebook, txn.cells, txn.dashboard)];
      nextId := txn.nextId;
      return Ok(Summary(id, newName, newDescription, reused, changes.value));
    }
  }
}
