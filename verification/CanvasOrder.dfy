/**
 Display orders and the cell limit while a canvas plan is applied: backend/src/canvas/service.rs
 and `execute_create_cell_transaction` in backend/src/cell/service.rs.
 */
module CanvasOrder {
  import opened Wrappers
  import opened CanvasPlan
  import opened CanvasStore
  import opened CanvasIntegrity
  import opened CanvasResults

  predicate InDisplayOrder(cells: seq<Cell>)
  {
    forall i, j :: 0 <= i < j < |cells| ==> cells[i].displayOrder <= cells[j].displayOrder
  }

  predicate HasOrder(cells: seq<Cell>, id: Id, order: int)
  {
    exists c :: c in cells && c.id == id && c.displayOrder == order
  }

  function Larger(a: int, b: int): int
  {
    if a < b then b else a
  }

  /** What the numbering starts from: the cells read, the next id and the next display order. */
  datatype Origin = Origin(cells: seq<Cell>, nextId: Id, order: int)

  /** Cells made since have consecutive ids and display orders; the others keep theirs. */
  predicate Placed(origin: Origin, c: Cell, order: int)
  {
    if c.id >= origin.nextId then c.displayOrder == origin.order + (c.id - origin.nextId) && c.displayOrder < order
    else HasOrder(origin.cells, c.id, c.displayOrder) && c.displayOrder < origin.order
  }

  ghost predicate Laid(origin: Origin, db: Db, order: int)
  {
    order - origin.order == db.nextId - origin.nextId && order >= origin.order &&
    InDisplayOrder(db.cells) && |db.cells| <= Larger(|origin.cells|, MAX_CELLS_PER_NOTEBOOK) &&
    forall c :: c in db.cells ==> Placed(origin, c, order)
  }

  lemma LaidSave(
    faults: set<nat>, origin: Origin, db: Db, cellType: CellType, name: Option<string>, content: Content, order: int)
    requires Laid(origin, db, order) && SaveCell(faults, db, cellType, name, content, order).Ok?
    ensures Laid(origin, SaveCell(faults, db, cellType, name, content, order).value, order + 1)
  {
    var next := SaveCell(faults, db, cellType, name, content, order).value;
    var n := |db.cells|;
    forall k | 0 <= k < |next.cells|
      ensures Placed(origin, next.cells[k], order + 1) && next.cells[k].displayOrder <= order
    {
      if k < n {
        assert next.cells[k] == db.cells[k] && db.cells[k] in db.cells;
        assert Placed(origin, db.cells[k], order);
      }
    }
    assert forall i, j :: 0 <= i < j < n ==> db.cells[i].displayOrder <= db.cells[j].displayOrder;
  }

  lemma LaidEdit(origin: Origin, db: Db, order: int, id: Id, name: Option<string>, content: Option<Content>, calls: nat)
    requires Laid(origin, db, order)
    ensures Laid(origin, db.(cells := Edited(db.cells, id, name, content), calls := calls), order)
  {
    var edited := Edited(db.cells, id, name, content);
    forall k | 0 <= k < |edited|
      ensures Placed(origin, edited[k], order) && edited[k].displayOrder == db.cells[k].displayOrder
    {
      assert db.cells[k] in db.cells;
      assert Placed(origin, db.cells[k], order);
    }
  }

  lemma {:induction false} WithoutInOrder(cells: seq<Cell>, id: Id)
    requires InDisplayOrder(cells)
    ensures InDisplayOrder(Without(cells, id)) && |Without(cells, id)| <= |cells|
  {
    if cells != [] {
      var n := |cells| - 1;
      WithoutInOrder(cells[..n], id);
      WithoutHas(cells[..n], id);
      var kept := Without(cells[..n], id);
      forall i | 0 <= i < |kept|
        ensures kept[i].displayOrder <= cells[n].displayOrder
      {
        assert kept[i] in kept;
        var k :| 0 <= k < n && cells[k] == kept[i];
      }
    }
  }

  lemma LaidRemove(origin: Origin, db: Db, order: int, id: Id, calls: nat)
    requires Laid(origin, db, order)
    ensures Laid(origin, db.(cells := Without(db.cells, id), calls := calls), order)
  {
    WithoutInOrder(db.cells, id);
    WithoutHas(db.cells, id);
    hide Placed;
  }

  lemma LaidAddChart(faults: set<nat>, origin: Origin, p: Progress, source: Id, title: Option<string>,
      chart: PlannedChart)
    requires Laid(origin, p.db, p.order) && AddChart(faults, p, source, title, chart).Ok?
    ensures var q := AddChart(faults, p, source, title, chart).value;
            Laid(origin, q.db, q.order)
  {
    hide Laid;
    LaidSave(faults, origin, p.db, ChartCell, title, Chart(ChartContentOf(source, chart)), p.order);
  }

  lemma LaidAddPair(faults: set<nat>, origin: Origin, p: Progress, title: Option<string>, sql: string,
      chart: Option<PlannedChart>)
    requires Laid(origin, p.db, p.order) && AddPair(faults, p, title, sql, chart).Ok?
    ensures var q := AddPair(faults, p, title, sql, chart).value;
            Laid(origin, q.db, q.order)
  {
    hide Laid, AddChart;
    LaidSave(faults, origin, p.db, SqlCell, title, Plain(sql), p.order);
    if chart.Some? {
      var db := SaveCell(faults, p.db, SqlCell, title, Plain(sql), p.order).value;
      LaidAddChart(faults, origin, p.(db := db, order := p.order + 1), p.db.nextId, title, chart.value);
    }
  }

  lemma LaidUpdate(
    faults: set<nat>, origin: Origin, p: Progress, pair: CellPair, title: Option<string>, sql: Option<string>,
    chart: Option<PlannedChart>)
    requires Laid(origin, p.db, p.order) && UpdatePair(faults, p, pair, title, sql, chart).Ok?
    ensures var q := UpdatePair(faults, p, pair, title, sql, chart).value;
            Laid(origin, q.db, q.order)
  {
    hide Laid, AddChart, Edited, HasCell;
    var mid := UpdateSql(faults, p, pair, title, sql).value;
    LaidEdit(origin, p.db, p.order, pair.sqlCellId, title,
      if sql.Some? then Some(Plain(sql.value)) else None, mid.db.calls);
    assert Laid(origin, mid.db, mid.order);
    hide UpdateSql;
    if chart.Some? {
      if pair.chartCellId.None? {
        LaidAddChart(faults, origin, mid, pair.sqlCellId, if title.Some? then title else Some(pair.title), chart.value);
      } else {
        LaidEdit(origin, mid.db, mid.order, pair.chartCellId.value, title,
                 Some(Chart(ChartContentOf(pair.sqlCellId, chart.value))), mid.db.calls + 2);
      }
    }
  }

  lemma LaidDelete(faults: set<nat>, origin: Origin, p: Progress, pair: CellPair)
    requires Laid(origin, p.db, p.order) && RemovePair(faults, p, pair).Ok?
    ensures var q := RemovePair(faults, p, pair).value;
            Laid(origin, q.db, q.order)
  {
    hide Laid, Without;
    var mid := RemoveChart(faults, p, pair).value;
    if pair.chartCellId.Some? {
      LaidRemove(origin, p.db, p.order, pair.chartCellId.value, p.db.calls + 1);
    }
    LaidRemove(origin, mid.db, mid.order, pair.sqlCellId, mid.db.calls + 1);
  }

  lemma LaidOne(faults: set<nat>, origin: Origin, pairs: seq<CellPair>, p: Progress, op: CanvasOp)
    requires Laid(origin, p.db, p.order) && ApplyOne(faults, pairs, p, op).Ok?
    ensures var q := ApplyOne(faults, pairs, p, op).value;
            Laid(origin, q.db, q.order)
  {
    hide Laid, AddPair, UpdatePair, RemovePair;
    match op
    case Create(title, sql, chart) => LaidAddPair(faults, origin, p, title, sql, chart);
    case Update(index, title, sql, chart) =>
      if index !in p.deleted && index < |pairs| {
        LaidUpdate(faults, origin, p, pairs[index], title, sql, chart);
      }
    case Delete(index) =>
      if index !in p.deleted && index < |pairs| {
        LaidDelete(faults, origin, p, pairs[index]);
      }
  }

  lemma {:induction false} LaidAll(faults: set<nat>, origin: Origin, pairs: seq<CellPair>, p: Progress,
      ops: seq<CanvasOp>)
    requires Laid(origin, p.db, p.order) && ApplyAll(faults, pairs, p, ops).Ok?
    ensures var q := ApplyAll(faults, pairs, p, ops).value;
            Laid(origin, q.db, q.order)
  {
    hide Laid, ApplyOne;
    if ops != [] {
      LaidAll(faults, origin, pairs, p, ops[..|ops| - 1]);
      LaidOne(faults, origin, pairs, ApplyAll(faults, pairs, p, ops[..|ops| - 1]).value, ops[|ops| - 1]);
    }
  }

  function OriginOf(db: Db): Origin
  {
    Origin(db.cells, db.nextId, MaxOrder(db.cells) + 1)
  }

  lemma LaidAtStart(db: Db)
    requires UniqueIds(db.cells, db.nextId) && InDisplayOrder(db.cells)
    ensures var p := CanvasStore.Start(db);
            Laid(OriginOf(db), p.db, p.order)
  {
    forall c | c in db.cells
      ensures Placed(OriginOf(db), c, MaxOrder(db.cells) + 1)
    {
      var k :| 0 <= k < |db.cells| && db.cells[k] == c;
      assert HasOrder(db.cells, c.id, c.displayOrder);
    }
  }

  /** A chart of a cell made by the plan has the next id. */
  ghost predicate ChartsFollow(o: Outline, base: Id)
  {
    forall c :: c in o.shape.charts && o.shape.charts[c] >= base ==> c == o.shape.charts[c] + 1
  }

  lemma {:induction false} ChartsFollowRun(pairs: seq<CellPair>, start: Outline, ops: seq<CanvasOp>)
    requires Consistent(pairs, start.nextId, start) && ChartsFollow(start, start.nextId)
    ensures ChartsFollow(OutlineRun(pairs, start, ops), start.nextId)
  {
    if ops != [] {
      var n := |ops| - 1;
      ChartsFollowRun(pairs, start, ops[..n]);
      assert forall i :: 0 <= i < |pairs| ==> PairConsistent(pairs[i], start.nextId, start, i);
      hide Consistent;
    }
  }

  ghost predicate PlacedAfter(db: Db, after: Db)
  {
    InDisplayOrder(after.cells) && |after.cells| <= Larger(|db.cells|, MAX_CELLS_PER_NOTEBOOK) &&
    (forall c :: c in after.cells && c.id < db.nextId ==> HasOrder(db.cells, c.id, c.displayOrder)) &&
    (forall c, d :: c in after.cells && c.id >= db.nextId && d in db.cells ==> d.displayOrder < c.displayOrder) &&
    forall c, d :: c in after.cells && d in after.cells && db.nextId <= c.id < d.id ==>
      d.displayOrder - c.displayOrder == d.id - c.id
  }

  /**
   Applying a plan keeps the cells in display order: cells that stay keep their place, new ones
   come after all that were there, in the order they were made, and a notebook never grows past 60.
   */
  lemma NewCellsComeLast(faults: set<nat>, db: Db, ops: seq<CanvasOp>)
    requires UniqueIds(db.cells, db.nextId) && InDisplayOrder(db.cells) && OpsOutcome(faults, db, ops).Ok?
    ensures PlacedAfter(db, OpsOutcome(faults, db, ops).value.0)
  {
    hide OpsOutcome, Pairs, ApplyAll, InDisplayOrder, UniqueIds, CanvasStore.Start;
    OpsRun(faults, db, ops);
    LaidAtStart(db);
    LaidAll(faults, OriginOf(db), Pairs(db.cells), CanvasStore.Start(db), ops);
    LaidIsPlaced(db, ApplyAll(faults, Pairs(db.cells), CanvasStore.Start(db), ops).value,
      OpsOutcome(faults, db, ops).value.0);
  }

  lemma LaidIsPlaced(db: Db, p: Progress, after: Db)
    requires Laid(OriginOf(db), p.db, p.order) && after.cells == p.db.cells && after.nextId == p.db.nextId
    ensures PlacedAfter(db, after)
  {
    hide InDisplayOrder, HasOrder;
    forall c | c in after.cells
      ensures c.id >= db.nextId ==> c.displayOrder == MaxOrder(db.cells) + 1 + (c.id - db.nextId)
      ensures c.id < db.nextId ==> HasOrder(db.cells, c.id, c.displayOrder)
    {
      assert Placed(OriginOf(db), c, p.order);
    }
    forall d | d in db.cells
      ensures d.displayOrder <= MaxOrder(db.cells)
    {
      var k :| 0 <= k < |db.cells| && db.cells[k] == d;
    }
  }

  /** No chart names an id that has not been given out yet. */
  predicate DrawsGivenIds(cells: seq<Cell>, nextId: Id)
  {
    forall c :: c in cells && c.IsChart() ==> c.content.value.chart.CellId() < nextId
  }

  lemma OpeningFollows(cells: seq<Cell>, nextId: Id, shape: Shape)
    requires HasShape(cells, nextId, shape) && DrawsGivenIds(cells, nextId)
    ensures Opening(shape, nextId).nextId == nextId && ChartsFollow(Opening(shape, nextId), nextId)
  {
    forall id | id in shape.charts
      ensures shape.charts[id] < nextId
    {
      assert HasChart(cells, id);
      var c :| c in cells && c.IsChart() && c.id == id;
    }
  }

  /** A chart created with its query comes right after it. */
  lemma NewChartFollowsItsQuery(faults: set<nat>, db: Db, ops: seq<CanvasOp>, query: Cell, chart: Cell)
    requires UniqueIds(db.cells, db.nextId) && InDisplayOrder(db.cells) && OpsOutcome(faults, db, ops).Ok?
    requires DrawsGivenIds(db.cells, db.nextId)
    requires var after := OpsOutcome(faults, db, ops).value.0;
             query in after.cells && chart in after.cells && query.id >= db.nextId && chart.Draws(query.id)
    ensures chart.displayOrder == query.displayOrder + 1
  {
    NewCellsComeLast(faults, db, ops);
    var shape := ShapeOf(db.cells, db.nextId);
    var pairs, start := Pairs(db.cells), Opening(shape, db.nextId);
    hide *;
    OpeningFollows(db.cells, db.nextId, shape);
    OutcomeOutlines(faults, db, ops, shape);
    OpsRun(faults, db, ops);
    ChartsFollowRun(pairs, start, ops);
    var p := ApplyAll(faults, pairs, CanvasStore.Start(db), ops).value;
    var o := OutlineRun(pairs, start, ops);
    OutlineShape(o, p);
    FollowsInShape(p.db.cells, p.db.nextId, o, start.nextId, query, chart);
    PlacedApart(db, OpsOutcome(faults, db, ops).value.0, query, chart);
  }

  lemma FollowsInShape(cells: seq<Cell>, nextId: Id, o: Outline, base: Id, query: Cell, chart: Cell)
    requires HasShape(cells, nextId, o.shape) && ChartsFollow(o, base)
    requires chart in cells && chart.Draws(query.id) && query.id >= base
    ensures chart.id == query.id + 1
  {
    assert HasChart(cells, chart.id);
  }

  lemma PlacedApart(db: Db, after: Db, query: Cell, chart: Cell)
    requires PlacedAfter(db, after) && query in after.cells && chart in after.cells
    requires query.id >= db.nextId && chart.id == query.id + 1
    ensures chart.displayOrder == query.displayOrder + 1
  {
  }
}
