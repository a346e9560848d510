/**
 What applying a canvas plan keeps: which cells and charts are left, seen as sets and a map from
 each chart cell to the SQL cell it draws. About backend/src/canvas/service.rs.
 */
module CanvasIntegrity {
  import opened Wrappers
  import opened Sequences
  import opened CanvasPlan
  import opened CanvasStore
  import GridPacker

  // ---------- Cells as a shape ----------

  predicate UniqueIds(cells: seq<Cell>, nextId: Id)
  {
    (forall i, j :: 0 <= i < j < |cells| ==> cells[i].id != cells[j].id) &&
    forall c :: c in cells ==> c.id < nextId
  }

  predicate HasSql(cells: seq<Cell>, id: Id)
  {
    exists c :: c in cells && c.IsSql() && c.id == id
  }

  predicate HasChart(cells: seq<Cell>, id: Id)
  {
    exists c :: c in cells && c.IsChart() && c.id == id
  }

  /** Which cells are SQL cells, and what each chart cell draws. */
  datatype Shape = Shape(sql: set<Id>, charts: map<Id, Id>)

  ghost predicate HasShape(cells: seq<Cell>, nextId: Id, shape: Shape)
  {
    UniqueIds(cells, nextId) &&
    (forall id :: id in shape.sql <==> HasSql(cells, id)) &&
    (forall id :: id in shape.charts <==> HasChart(cells, id)) &&
    forall c :: c in cells && c.IsChart() ==> c.Draws(shape.charts[c.id])
  }

  /** Every chart draws a live SQL cell, and no two draw the same. */
  predicate Sound(shape: Shape)
  {
    (forall c :: c in shape.charts ==> shape.charts[c] in shape.sql) &&
    forall c, d :: c in shape.charts && d in shape.charts && c != d ==> shape.charts[c] != shape.charts[d]
  }

  lemma ShapeSave(cells: seq<Cell>, nextId: Id, shape: Shape, cell: Cell)
    requires HasShape(cells, nextId, shape) && cell.id == nextId
    requires cell.IsSql() || cell.IsChart()
    ensures HasShape(cells + [cell], nextId + 1,
                     if cell.IsSql() then shape.(sql := shape.sql + {nextId})
                     else shape.(charts := shape.charts[nextId := cell.content.value.chart.CellId()]))
  {
    var all := cells + [cell];
    assert all[|cells|] == cell;
    assert forall c :: c in all <==> c in cells || c == cell;
    assert nextId !in shape.charts;
  }

  lemma {:induction false} WithoutHas(cells: seq<Cell>, id: Id)
    ensures forall c :: c in Without(cells, id) <==> c in cells && c.id != id
  {
    if cells != [] {
      WithoutHas(cells[..|cells| - 1], id);
      Snoc(cells);
    }
  }

  lemma {:induction false} WithoutUnique(cells: seq<Cell>, id: Id, nextId: Id)
    requires UniqueIds(cells, nextId)
    ensures UniqueIds(Without(cells, id), nextId)
  {
    if cells != [] {
      var n := |cells| - 1;
      WithoutUnique(cells[..n], id, nextId);
      WithoutHas(cells[..n], id);
      forall c | c in Without(cells[..n], id)
        ensures c.id != cells[n].id && c.id < nextId
      {
        var k :| 0 <= k < n && cells[k] == c;
      }
    }
  }

  lemma ShapeRemove(cells: seq<Cell>, nextId: Id, shape: Shape, id: Id)
    requires HasShape(cells, nextId, shape)
    ensures HasShape(Without(cells, id), nextId, Shape(shape.sql - {id}, shape.charts - {id}))
  {
    WithoutHas(cells, id);
    WithoutUnique(cells, id, nextId);
  }

  /** The content an edit may bring: a query to an SQL cell, or a chart of the same source to a chart cell. */
  predicate Keeps(shape: Shape, id: Id, content: Option<Content>)
  {
    if id in shape.charts
    then content.Some? ==> content.value.Chart? && content.value.chart.CellId() == shape.charts[id]
    else id in shape.sql
  }

  lemma ShapeEdit(cells: seq<Cell>, nextId: Id, shape: Shape, id: Id, name: Option<string>, content: Option<Content>)
    requires HasShape(cells, nextId, shape) && Keeps(shape, id, content)
    ensures HasShape(Edited(cells, id, name, content), nextId, shape)
  {
    var edited := Edited(cells, id, name, content);
    forall k | 0 <= k < |cells|
      ensures edited[k].id == cells[k].id && edited[k].cellType == cells[k].cellType &&
              (cells[k].IsChart() <==> edited[k].IsChart())
      ensures edited[k].IsChart() ==> edited[k].Draws(shape.charts[edited[k].id])
    {
      assert cells[k] in cells;
    }
    forall i | HasSql(cells, i)
      ensures HasSql(edited, i)
    {
      var k :| 0 <= k < |cells| && cells[k].IsSql() && cells[k].id == i;
      assert edited[k] in edited;
    }
    forall i | HasChart(cells, i)
      ensures HasChart(edited, i)
    {
      var k :| 0 <= k < |cells| && cells[k].IsChart() && cells[k].id == i;
      assert edited[k] in edited;
    }
  }

  // ---------- The operations on shapes ----------

  /** `Progress` without the contents of the cells. */
  datatype Outline = Outline(
    shape: Shape, nextId: Id, deleted: set<nat>, queued: seq<Id>, removedIds: seq<Id>, changes: Changes)

  function OutlineCreate(o: Outline, hasChart: bool): Outline
  {
    var sql := o.shape.sql + {o.nextId};
    if hasChart then
      o.(shape := Shape(sql, o.shape.charts[o.nextId + 1 := o.nextId]), nextId := o.nextId + 2,
         queued := o.queued + [o.nextId + 1], changes := o.changes.(added := o.changes.added + 1))
    else
      o.(shape := o.shape.(sql := sql), nextId := o.nextId + 1, changes := o.changes.(added := o.changes.added + 1))
  }

  function OutlineUpdate(o: Outline, pair: CellPair, hasChart: bool): Outline
  {
    var changes := o.changes.(updated := o.changes.updated + 1);
    if hasChart && pair.chartCellId.None? then
      o.(shape := o.shape.(charts := o.shape.charts[o.nextId := pair.sqlCellId]), nextId := o.nextId + 1,
         queued := o.queued + [o.nextId], changes := changes)
    else o.(changes := changes)
  }

  function OutlineDelete(o: Outline, pair: CellPair, index: nat): Outline
  {
    var next := o.(deleted := o.deleted + {index}, changes := o.changes.(removed := o.changes.removed + 1));
    match pair.chartCellId
    case None => next.(shape := Shape(o.shape.sql - {pair.sqlCellId}, o.shape.charts - {pair.sqlCellId}))
    case Some(chart) =>
      next.(shape := Shape(o.shape.sql - {chart} - {pair.sqlCellId}, o.shape.charts - {chart} - {pair.sqlCellId}),
            removedIds := o.removedIds + [chart])
  }

  function OutlineStep(pairs: seq<CellPair>, o: Outline, op: CanvasOp): Outline
  {
    match op
    case Create(_, _, chart) => OutlineCreate(o, chart.Some?)
    case Update(index, _, _, chart) =>
      if index in o.deleted || index >= |pairs| then o else OutlineUpdate(o, pairs[index], chart.Some?)
    case Delete(index) =>
      if index in o.deleted || index >= |pairs| then o else OutlineDelete(o, pairs[index], index)
  }

  function OutlineRun(pairs: seq<CellPair>, start: Outline, ops: seq<CanvasOp>): Outline
  {
    if ops == [] then start else OutlineStep(pairs, OutlineRun(pairs, start, ops[..|ops| - 1]), ops[|ops| - 1])
  }

  function CellIds(queued: seq<GridPacker.ChartRequest>): (ids: seq<Id>)
    ensures |ids| == |queued|
  {
    seq(|queued|, k requires 0 <= k < |queued| => queued[k].cellId)
  }

  ghost predicate Outlines(o: Outline, p: Progress)
  {
    HasShape(p.db.cells, p.db.nextId, o.shape) && o.nextId == p.db.nextId && o.deleted == p.deleted &&
    o.queued == CellIds(p.queued) && o.removedIds == p.removedIds && o.changes == p.changes
  }

  /** A pair not deleted is still there, and its chart still draws it. */
  predicate PairLives(o: Outline, pair: CellPair)
  {
    pair.sqlCellId in o.shape.sql && pair.sqlCellId !in o.shape.charts &&
    (pair.chartCellId.Some? ==>
       pair.chartCellId.value in o.shape.charts && o.shape.charts[pair.chartCellId.value] == pair.sqlCellId &&
       pair.chartCellId.value !in o.shape.sql)
  }

  lemma CellIdsSnoc(queued: seq<GridPacker.ChartRequest>, request: GridPacker.ChartRequest)
    ensures CellIds(queued + [request]) == CellIds(queued) + [request.cellId]
  {
  }

  lemma AddChartOutline(faults: set<nat>, p: Progress, o: Outline, source: Id, title: Option<string>,
      chart: PlannedChart)
    requires Outlines(o, p) && AddChart(faults, p, source, title, chart).Ok?
    ensures Outlines(o.(shape := o.shape.(charts := o.shape.charts[o.nextId := source]), nextId := o.nextId + 1,
                        queued := o.queued + [o.nextId]),
                     AddChart(faults, p, source, title, chart).value)
  {
    hide HasShape;
    var cell := Cell(p.db.nextId, ChartCell, title, Some(Chart(ChartContentOf(source, chart))), p.order);
    ShapeSave(p.db.cells, p.db.nextId, o.shape, cell);
    CellIdsSnoc(p.queued, Request(p.db.nextId, chart));
    hide CellIds;
  }

  lemma CreateOutline(faults: set<nat>, p: Progress, o: Outline, title: Option<string>, sql: string,
      chart: Option<PlannedChart>)
    requires Outlines(o, p) && AddPair(faults, p, title, sql, chart).Ok?
    ensures var q := AddPair(faults, p, title, sql, chart).value;
            Outlines(OutlineCreate(o, chart.Some?), q.(changes := q.changes.(added := q.changes.added + 1)))
  {
    hide HasShape, CellIds;
    var cell := Cell(p.db.nextId, SqlCell, title, Some(Plain(sql)), p.order);
    ShapeSave(p.db.cells, p.db.nextId, o.shape, cell);
    if chart.Some? {
      var db := SaveCell(faults, p.db, SqlCell, title, Plain(sql), p.order).value;
      var mid := p.(db := db, order := p.order + 1);
      var between := o.(shape := o.shape.(sql := o.shape.sql + {o.nextId}), nextId := o.nextId + 1);
      AddChartOutline(faults, mid, between, p.db.nextId, title, chart.value);
      hide AddChart;
    }
  }

  lemma UpdateOutline(
    faults: set<nat>, p: Progress, o: Outline, pair: CellPair, title: Option<string>, sql: Option<string>,
    chart: Option<PlannedChart>)
    requires Outlines(o, p) && PairLives(o, pair) && UpdatePair(faults, p, pair, title, sql, chart).Ok?
    ensures var q := UpdatePair(faults, p, pair, title, sql, chart).value;
            Outlines(OutlineUpdate(o, pair, chart.Some?), q.(changes := q.changes.(updated := q.changes.updated + 1)))
  {
    hide HasShape, CellIds, Edited, HasCell;
    var mid := UpdateSql(faults, p, pair, title, sql).value;
    var newSql := if sql.Some? then Some(Plain(sql.value)) else None;
    ShapeEdit(p.db.cells, p.db.nextId, o.shape, pair.sqlCellId, title, newSql);
    assert Outlines(o, mid);
    hide UpdateSql;
    if chart.Some? {
      if pair.chartCellId.None? {
        AddChartOutline(faults, mid, o, pair.sqlCellId, if title.Some? then title else Some(pair.title), chart.value);
        hide AddChart;
      } else {
        ShapeEdit(mid.db.cells, mid.db.nextId, o.shape, pair.chartCellId.value, title,
          Some(Chart(ChartContentOf(pair.sqlCellId, chart.value))));
      }
    }
  }

  lemma DeleteOutline(faults: set<nat>, p: Progress, o: Outline, pair: CellPair, index: nat)
    requires Outlines(o, p) && RemovePair(faults, p, pair).Ok?
    ensures var q := RemovePair(faults, p, pair).value;
            Outlines(OutlineDelete(o, pair, index),
                     q.(deleted := q.deleted + {index}, changes := q.changes.(removed := q.changes.removed + 1)))
  {
    hide HasShape, CellIds, Without;
    if pair.chartCellId.None? {
      ShapeRemove(p.db.cells, p.db.nextId, o.shape, pair.sqlCellId);
    } else {
      var chart := pair.chartCellId.value;
      ShapeRemove(p.db.cells, p.db.nextId, o.shape, chart);
      ShapeRemove(Without(p.db.cells, chart), p.db.nextId, Shape(o.shape.sql - {chart}, o.shape.charts - {chart}),
        pair.sqlCellId);
    }
  }

  lemma StepOutline(faults: set<nat>, pairs: seq<CellPair>, p: Progress, o: Outline, op: CanvasOp)
    requires Outlines(o, p) && ApplyOne(faults, pairs, p, op).Ok?
    requires op.Update? && op.index !in o.deleted && op.index < |pairs| ==> PairLives(o, pairs[op.index])
    ensures Outlines(OutlineStep(pairs, o, op), ApplyOne(faults, pairs, p, op).value)
  {
    hide Outlines, AddPair, UpdatePair, RemovePair, PairLives, OutlineCreate, OutlineUpdate, OutlineDelete;
    SameDeleted(o, p);
    match op
    case Create(title, sql, chart) => CreateOutline(faults, p, o, title, sql, chart);
    case Update(index, title, sql, chart) =>
      if index !in p.deleted && index < |pairs| {
        UpdateOutline(faults, p, o, pairs[index], title, sql, chart);
      }
    case Delete(index) =>
      if index !in p.deleted && index < |pairs| {
        DeleteOutline(faults, p, o, pairs[index], index);
      }
  }

  lemma SameDeleted(o: Outline, p: Progress)
    requires Outlines(o, p)
    ensures o.deleted == p.deleted
  {
  }

  // ---------- What every step keeps ----------

  /** The pairs were read when ids below `base` had been given out; ids are never given twice. */
  ghost predicate Consistent(pairs: seq<CellPair>, base: Id, o: Outline)
  {
    base <= o.nextId &&
    (forall id :: id in o.shape.sql ==> id < o.nextId && id !in o.shape.charts) &&
    (forall c :: c in o.shape.charts ==> c < o.nextId) &&
    DistinctPairs(pairs) &&
    forall i :: 0 <= i < |pairs| ==> PairConsistent(pairs[i], base, o, i)
  }

  predicate DistinctPairs(pairs: seq<CellPair>)
  {
    forall i, j :: 0 <= i < j < |pairs| ==> pairs[i].sqlCellId != pairs[j].sqlCellId
  }

  predicate PairConsistent(pair: CellPair, base: Id, o: Outline, i: nat)
  {
    pair.sqlCellId < base && (pair.chartCellId.Some? ==> pair.chartCellId.value < base) &&
    if i in o.deleted then pair.sqlCellId !in o.shape.sql else PairLives(o, pair)
  }

  lemma ConsistentCreate(pairs: seq<CellPair>, base: Id, o: Outline, hasChart: bool)
    requires Consistent(pairs, base, o)
    ensures Consistent(pairs, base, OutlineCreate(o, hasChart))
  {
    var next := OutlineCreate(o, hasChart);
    forall i | 0 <= i < |pairs|
      ensures PairConsistent(pairs[i], base, next, i)
    {
      assert PairConsistent(pairs[i], base, o, i);
    }
  }

  lemma ConsistentUpdate(pairs: seq<CellPair>, base: Id, o: Outline, index: nat, hasChart: bool)
    requires Consistent(pairs, base, o) && index < |pairs| && index !in o.deleted
    ensures Consistent(pairs, base, OutlineUpdate(o, pairs[index], hasChart))
  {
    var next := OutlineUpdate(o, pairs[index], hasChart);
    forall i | 0 <= i < |pairs|
      ensures PairConsistent(pairs[i], base, next, i)
    {
      assert PairConsistent(pairs[i], base, o, i);
    }
  }

  lemma ConsistentDelete(pairs: seq<CellPair>, base: Id, o: Outline, index: nat)
    requires Consistent(pairs, base, o) && index < |pairs| && index !in o.deleted
    ensures Consistent(pairs, base, OutlineDelete(o, pairs[index], index))
  {
    var next := OutlineDelete(o, pairs[index], index);
    assert PairConsistent(pairs[index], base, o, index);
    forall i | 0 <= i < |pairs|
      ensures PairConsistent(pairs[i], base, next, i)
    {
      assert PairConsistent(pairs[i], base, o, i);
      if i != index {
        assert pairs[i].sqlCellId != pairs[index].sqlCellId;
      }
    }
  }

  lemma ConsistentStep(pairs: seq<CellPair>, base: Id, o: Outline, op: CanvasOp)
    requires Consistent(pairs, base, o)
    ensures Consistent(pairs, base, OutlineStep(pairs, o, op))
  {
    hide Consistent, OutlineCreate, OutlineUpdate, OutlineDelete;
    match op
    case Create(_, _, chart) => ConsistentCreate(pairs, base, o, chart.Some?);
    case Update(index, _, _, chart) =>
      if index !in o.deleted && index < |pairs| {
        ConsistentUpdate(pairs, base, o, index, chart.Some?);
      }
    case Delete(index) =>
      if index !in o.deleted && index < |pairs| {
        ConsistentDelete(pairs, base, o, index);
      }
  }

  lemma LivePair(pairs: seq<CellPair>, base: Id, o: Outline, i: nat)
    requires Consistent(pairs, base, o) && i < |pairs| && i !in o.deleted
    ensures PairLives(o, pairs[i])
  {
    assert PairConsistent(pairs[i], base, o, i);
  }

  lemma {:induction false} ConsistentRun(pairs: seq<CellPair>, base: Id, start: Outline, ops: seq<CanvasOp>)
    requires Consistent(pairs, base, start)
    ensures Consistent(pairs, base, OutlineRun(pairs, start, ops))
  {
    hide Consistent, OutlineStep;
    if ops != [] {
      ConsistentRun(pairs, base, start, ops[..|ops| - 1]);
      ConsistentStep(pairs, base, OutlineRun(pairs, start, ops[..|ops| - 1]), ops[|ops| - 1]);
    }
  }

  /** The code follows the outline all the way. */
  lemma {:induction false} RunOutlines(faults: set<nat>, pairs: seq<CellPair>, base: Id, p: Progress, o: Outline,
      ops: seq<CanvasOp>)
    requires Outlines(o, p) && Consistent(pairs, base, o) && ApplyAll(faults, pairs, p, ops).Ok?
    ensures Outlines(OutlineRun(pairs, o, ops), ApplyAll(faults, pairs, p, ops).value)
  {
    hide Consistent, Outlines, OutlineStep, ApplyOne, PairLives;
    if ops != [] {
      var n := |ops| - 1;
      RunOutlines(faults, pairs, base, p, o, ops[..n]);
      ConsistentRun(pairs, base, o, ops[..n]);
      var mid := OutlineRun(pairs, o, ops[..n]);
      if ops[n].Update? && ops[n].index !in mid.deleted && ops[n].index < |pairs| {
        LivePair(pairs, base, mid, ops[n].index);
      }
      StepOutline(faults, pairs, ApplyAll(faults, pairs, p, ops[..n]).value, mid, ops[n]);
    }
  }

  // ---------- Which plans keep every chart on a cell of its own ----------

  predicate DrawsOn(op: CanvasOp, i: nat)
  {
    op.Update? && op.index == i && op.chart.Some?
  }

  /** Operation j gives a chart to cell i, still there, which had none when the plan was applied. */
  ghost predicate AddsChart(pairs: seq<CellPair>, ops: seq<CanvasOp>, j: nat, i: nat)
    requires j < |ops| && i < |pairs|
  {
    DrawsOn(ops[j], i) && pairs[i].chartCellId.None? && forall d :: 0 <= d < j ==> ops[d] != Delete(i)
  }

  /** After a cell without a chart gets one, the plan neither draws on it again nor deletes it. */
  ghost predicate Safe(pairs: seq<CellPair>, ops: seq<CanvasOp>)
  {
    forall i: nat, j: nat, k: nat :: i < |pairs| && j < k < |ops| && AddsChart(pairs, ops, j, i) ==>
      !DrawsOn(ops[k], i) && ops[k] != Delete(i)
  }

  ghost predicate Drawn(shape: Shape, source: Id)
  {
    exists c :: c in shape.charts && shape.charts[c] == source
  }

  /** Cells without a chart at the start have one only if an operation gave it. */
  ghost predicate OnlyAdded(pairs: seq<CellPair>, ops: seq<CanvasOp>, o: Outline)
  {
    forall i: nat :: i < |pairs| && pairs[i].chartCellId.None? && Drawn(o.shape, pairs[i].sqlCellId) ==>
      exists j: nat :: j < |ops| && AddsChart(pairs, ops, j, i)
  }

  ghost predicate DeletedBy(pairs: seq<CellPair>, ops: seq<CanvasOp>, o: Outline)
  {
    forall i: nat :: i in o.deleted <==> i < |pairs| && exists d :: 0 <= d < |ops| && ops[d] == Delete(i)
  }

  lemma DeletedStep(pairs: seq<CellPair>, ops: seq<CanvasOp>, o: Outline, op: CanvasOp)
    requires DeletedBy(pairs, ops, o)
    ensures DeletedBy(pairs, ops + [op], OutlineStep(pairs, o, op))
  {
    var all := ops + [op];
    var next := OutlineStep(pairs, o, op);
    assert all[|ops|] == op;
    assert next.deleted == if op.Delete? && op.index < |pairs| then o.deleted + {op.index} else o.deleted;
    forall i: nat
      ensures (exists d :: 0 <= d < |all| && all[d] == Delete(i)) <==>
              op == Delete(i) || exists d :: 0 <= d < |ops| && ops[d] == Delete(i)
    {
      if d :| 0 <= d < |ops| && ops[d] == Delete(i) {
        assert all[d] == Delete(i);
      }
    }
  }

  lemma AddsLifts(pairs: seq<CellPair>, ops: seq<CanvasOp>, op: CanvasOp, j: nat, i: nat)
    requires j < |ops| && i < |pairs|
    ensures AddsChart(pairs, ops + [op], j, i) <==> AddsChart(pairs, ops, j, i)
  {
    var all := ops + [op];
    assert forall d :: 0 <= d <= j ==> all[d] == ops[d];
  }

  lemma SafePrefix(pairs: seq<CellPair>, ops: seq<CanvasOp>, op: CanvasOp)
    requires Safe(pairs, ops + [op])
    ensures Safe(pairs, ops)
  {
    hide AddsChart;
    var all := ops + [op];
    forall i: nat, j: nat, k: nat | i < |pairs| && j < k < |ops| && AddsChart(pairs, ops, j, i)
      ensures !DrawsOn(ops[k], i) && ops[k] != Delete(i)
    {
      AddsLifts(pairs, ops, op, j, i);
      assert all[k] == ops[k];
    }
  }

  /** In a safe plan an operation on a cell without its own chart finds no chart on it. */
  lemma NotDrawnBefore(pairs: seq<CellPair>, ops: seq<CanvasOp>, op: CanvasOp, o: Outline, i: nat)
    requires Safe(pairs, ops + [op]) && OnlyAdded(pairs, ops, o)
    requires i < |pairs| && pairs[i].chartCellId.None? && (DrawsOn(op, i) || op == Delete(i))
    ensures !Drawn(o.shape, pairs[i].sqlCellId)
  {
    hide AddsChart, DrawsOn, Drawn;
    assert (ops + [op])[|ops|] == op;
    forall j: nat | j < |ops|
      ensures !AddsChart(pairs, ops, j, i)
    {
      AddsLifts(pairs, ops, op, j, i);
    }
  }

  lemma OnlyAddedStep(pairs: seq<CellPair>, ops: seq<CanvasOp>, op: CanvasOp, o: Outline, next: Outline, added: int)
    requires OnlyAdded(pairs, ops, o)
    requires 0 <= added < |pairs| ==> AddsChart(pairs, ops + [op], |ops|, added)
    requires forall i: nat :: i < |pairs| && i != added && Drawn(next.shape, pairs[i].sqlCellId) ==>
               Drawn(o.shape, pairs[i].sqlCellId)
    ensures OnlyAdded(pairs, ops + [op], next)
  {
    hide AddsChart, Drawn;
    forall i: nat | i < |pairs| && pairs[i].chartCellId.None? && Drawn(next.shape, pairs[i].sqlCellId)
      ensures exists j: nat :: j < |ops + [op]| && AddsChart(pairs, ops + [op], j, i)
    {
      if i != added {
        var j: nat :| j < |ops| && AddsChart(pairs, ops, j, i);
        AddsLifts(pairs, ops, op, j, i);
      }
    }
  }

  lemma SoundCreate(pairs: seq<CellPair>, base: Id, ops: seq<CanvasOp>, op: CanvasOp, o: Outline)
    requires Consistent(pairs, base, o) && Sound(o.shape) && OnlyAdded(pairs, ops, o) && op.Create?
    ensures Sound(OutlineStep(pairs, o, op).shape) && OnlyAdded(pairs, ops + [op], OutlineStep(pairs, o, op))
  {
    var next := OutlineStep(pairs, o, op);
    forall i: nat | i < |pairs| && Drawn(next.shape, pairs[i].sqlCellId)
      ensures Drawn(o.shape, pairs[i].sqlCellId)
    {
      assert PairConsistent(pairs[i], base, o, i);
    }
    hide Drawn, Consistent;
    OnlyAddedStep(pairs, ops, op, o, next, -1);
  }

  lemma SoundUpdate(pairs: seq<CellPair>, base: Id, ops: seq<CanvasOp>, op: CanvasOp, o: Outline)
    requires Consistent(pairs, base, o) && Sound(o.shape) && OnlyAdded(pairs, ops, o) && DeletedBy(pairs, ops, o)
    requires Safe(pairs, ops + [op]) && op.Update? && op.index < |pairs| && op.index !in o.deleted
    ensures Sound(OutlineStep(pairs, o, op).shape) && OnlyAdded(pairs, ops + [op], OutlineStep(pairs, o, op))
  {
    var next := OutlineStep(pairs, o, op);
    var source := pairs[op.index].sqlCellId;
    LivePair(pairs, base, o, op.index);
    if op.chart.Some? && pairs[op.index].chartCellId.None? {
      NotDrawnBefore(pairs, ops, op, o, op.index);
      AddsNow(pairs, ops, op, o);
      DrawnAfterAdding(o.shape, o.nextId, source);
      assert forall i: nat :: i < |pairs| && i != op.index ==> pairs[i].sqlCellId != source;
      hide Drawn, Safe, DeletedBy, AddsChart;
      OnlyAddedStep(pairs, ops, op, o, next, op.index);
    } else {
      hide Drawn, Safe, DeletedBy, AddsChart;
      OnlyAddedStep(pairs, ops, op, o, next, -1);
    }
  }

  lemma AddsNow(pairs: seq<CellPair>, ops: seq<CanvasOp>, op: CanvasOp, o: Outline)
    requires DeletedBy(pairs, ops, o) && op.Update? && op.index < |pairs| && op.index !in o.deleted
    requires op.chart.Some? && pairs[op.index].chartCellId.None?
    ensures AddsChart(pairs, ops + [op], |ops|, op.index)
  {
    var all := ops + [op];
    assert all[|ops|] == op;
    forall d | 0 <= d < |ops|
      ensures all[d] != Delete(op.index)
    {
      assert all[d] == ops[d];
    }
  }

  lemma DrawnAfterAdding(shape: Shape, chart: Id, source: Id)
    requires chart !in shape.charts
    ensures forall s :: Drawn(shape.(charts := shape.charts[chart := source]), s) <==> Drawn(shape, s) || s == source
  {
    var next := shape.(charts := shape.charts[chart := source]);
    forall s
      ensures Drawn(next, s) <==> Drawn(shape, s) || s == source
    {
      if Drawn(shape, s) {
        var c :| c in shape.charts && shape.charts[c] == s;
        assert next.charts[c] == s;
      }
      if s == source {
        assert next.charts[chart] == s;
      }
    }
  }

  lemma SoundDelete(pairs: seq<CellPair>, base: Id, ops: seq<CanvasOp>, op: CanvasOp, o: Outline)
    requires Consistent(pairs, base, o) && Sound(o.shape) && OnlyAdded(pairs, ops, o)
    requires Safe(pairs, ops + [op]) && op.Delete? && op.index < |pairs| && op.index !in o.deleted
    ensures Sound(OutlineStep(pairs, o, op).shape) && OnlyAdded(pairs, ops + [op], OutlineStep(pairs, o, op))
  {
    var next := OutlineStep(pairs, o, op);
    LivePair(pairs, base, o, op.index);
    if pairs[op.index].chartCellId.None? {
      NotDrawnBefore(pairs, ops, op, o, op.index);
    }
    assert Sound(next.shape) by {
      hide Consistent, Safe, OnlyAdded;
    }
    hide Consistent, Safe, Sound, AddsChart;
    forall i: nat | i < |pairs| && Drawn(next.shape, pairs[i].sqlCellId)
      ensures Drawn(o.shape, pairs[i].sqlCellId)
    {
    }
    hide Drawn;
    OnlyAddedStep(pairs, ops, op, o, next, -1);
  }

  lemma SoundStep(pairs: seq<CellPair>, base: Id, ops: seq<CanvasOp>, op: CanvasOp, o: Outline)
    requires Consistent(pairs, base, o) && Sound(o.shape) && OnlyAdded(pairs, ops, o) && DeletedBy(pairs, ops, o)
    requires Safe(pairs, ops + [op])
    ensures Sound(OutlineStep(pairs, o, op).shape) && OnlyAdded(pairs, ops + [op], OutlineStep(pairs, o, op))
  {
    hide Consistent, Sound, OnlyAdded, DeletedBy, Safe, OutlineCreate, OutlineUpdate, OutlineDelete, Drawn;
    if op.Create? {
      SoundCreate(pairs, base, ops, op, o);
    } else if op.index in o.deleted || op.index >= |pairs| {
      OnlyAddedStep(pairs, ops, op, o, o, -1);
    } else if op.Update? {
      SoundUpdate(pairs, base, ops, op, o);
    } else {
      SoundDelete(pairs, base, ops, op, o);
    }
  }

  /** Nothing applied yet, to cells whose pairs these are. */
  ghost predicate Fresh(pairs: seq<CellPair>, start: Outline)
  {
    Consistent(pairs, start.nextId, start) && Sound(start.shape) && start.deleted == {} &&
    OnlyAdded(pairs, [], start)
  }

  lemma {:induction false} SafeRun(pairs: seq<CellPair>, start: Outline, ops: seq<CanvasOp>)
    requires Fresh(pairs, start) && Safe(pairs, ops)
    ensures Sound(OutlineRun(pairs, start, ops).shape) && OnlyAdded(pairs, ops, OutlineRun(pairs, start, ops))
    decreases |ops|
  {
    hide Safe, OnlyAdded, OutlineStep, Sound, Consistent;
    if ops != [] {
      var n := |ops| - 1;
      Snoc(ops);
      SafePrefix(pairs, ops[..n], ops[n]);
      SafeRun(pairs, start, ops[..n]);
      ConsistentRun(pairs, start.nextId, start, ops[..n]);
      DeletedRun(pairs, start, ops[..n]);
      SoundStep(pairs, start.nextId, ops[..n], ops[n], OutlineRun(pairs, start, ops[..n]));
    }
  }

  lemma {:induction false} DeletedRun(pairs: seq<CellPair>, start: Outline, ops: seq<CanvasOp>)
    requires start.deleted == {}
    ensures DeletedBy(pairs, ops, OutlineRun(pairs, start, ops))
  {
    if ops != [] {
      var n := |ops| - 1;
      hide OutlineStep, DeletedBy;
      Snoc(ops);
      DeletedRun(pairs, start, ops[..n]);
      DeletedStep(pairs, ops[..n], OutlineRun(pairs, start, ops[..n]), ops[n]);
    }
  }

  // ---------- Unsafe plans leave a chart without a cell of its own ----------

  /** A chart made by the plan draws this cell. */
  ghost predicate Hung(o: Outline, base: Id, source: Id)
  {
    exists c :: c in o.shape.charts && c >= base && o.shape.charts[c] == source
  }

  /** Two of the plan's charts draw this cell, or one does and the cell is gone. */
  ghost predicate Stuck(o: Outline, base: Id, source: Id)
  {
    (Hung(o, base, source) && source !in o.shape.sql) ||
    exists c, d :: c in o.shape.charts && d in o.shape.charts && c >= base && d >= base && c != d &&
                   o.shape.charts[c] == source && o.shape.charts[d] == source
  }

  /** The plan's own charts are never removed or redrawn, and an id once gone stays gone. */
  lemma ChartsStay(pairs: seq<CellPair>, base: Id, o: Outline, op: CanvasOp)
    requires Consistent(pairs, base, o)
    ensures var next := OutlineStep(pairs, o, op);
            (forall c :: c in o.shape.charts && c >= base ==>
              c in next.shape.charts && next.shape.charts[c] == o.shape.charts[c]) &&
            forall id :: id < base && id !in o.shape.sql ==> id !in next.shape.sql
  {
    if !op.Create? && op.index < |pairs| {
      assert PairConsistent(pairs[op.index], base, o, op.index);
    }
  }

  lemma StuckStep(pairs: seq<CellPair>, base: Id, o: Outline, op: CanvasOp, source: Id)
    requires Consistent(pairs, base, o) && source < base
    ensures Hung(o, base, source) ==> Hung(OutlineStep(pairs, o, op), base, source)
    ensures Stuck(o, base, source) ==> Stuck(OutlineStep(pairs, o, op), base, source)
  {
    ChartsStay(pairs, base, o, op);
    hide Consistent, OutlineStep;
  }

  lemma {:induction false} StuckRun(pairs: seq<CellPair>, base: Id, start: Outline, ops: seq<CanvasOp>, k: nat,
      source: Id)
    requires Consistent(pairs, base, start) && source < base && k <= |ops|
    ensures Hung(OutlineRun(pairs, start, ops[..k]), base, source) ==> Hung(OutlineRun(pairs, start, ops), base, source)
    ensures Stuck(OutlineRun(pairs, start, ops[..k]), base, source) ==>
            Stuck(OutlineRun(pairs, start, ops), base, source)
    decreases |ops|
  {
    hide Consistent, OutlineStep, Hung, Stuck;
    if k < |ops| {
      var n := |ops| - 1;
      assert ops[..n][..k] == ops[..k];
      StuckRun(pairs, base, start, ops[..n], k, source);
      ConsistentRun(pairs, base, start, ops[..n]);
      StuckStep(pairs, base, OutlineRun(pairs, start, ops[..n]), ops[n], source);
    } else {
      assert ops[..k] == ops;
    }
  }

  lemma AddedIsHung(pairs: seq<CellPair>, base: Id, o: Outline, op: CanvasOp)
    requires Consistent(pairs, base, o) && op.Update? && op.chart.Some? && op.index < |pairs|
    requires pairs[op.index].chartCellId.None? && op.index !in o.deleted
    ensures Hung(OutlineStep(pairs, o, op), base, pairs[op.index].sqlCellId)
    ensures Hung(o, base, pairs[op.index].sqlCellId) ==>
            Stuck(OutlineStep(pairs, o, op), base, pairs[op.index].sqlCellId)
  {
    var next := OutlineStep(pairs, o, op);
    assert next.shape.charts[o.nextId] == pairs[op.index].sqlCellId;
    if Hung(o, base, pairs[op.index].sqlCellId) {
      var c :| c in o.shape.charts && c >= base && o.shape.charts[c] == pairs[op.index].sqlCellId;
      assert next.shape.charts[c] == pairs[op.index].sqlCellId && c != o.nextId;
    }
  }

  lemma SecondUseSticks(pairs: seq<CellPair>, base: Id, o: Outline, op: CanvasOp, i: nat)
    requires Consistent(pairs, base, o) && i < |pairs| && pairs[i].chartCellId.None?
    requires Hung(o, base, pairs[i].sqlCellId) && (DrawsOn(op, i) || op == Delete(i))
    ensures Stuck(OutlineStep(pairs, o, op), base, pairs[i].sqlCellId)
  {
    assert PairConsistent(pairs[i], base, o, i);
    if i in o.deleted {
      StuckStep(pairs, base, o, op, pairs[i].sqlCellId);
    } else if op.Update? {
      AddedIsHung(pairs, base, o, op);
    } else {
      StuckStep(pairs, base, o, op, pairs[i].sqlCellId);
      assert pairs[i].sqlCellId !in OutlineStep(pairs, o, op).shape.sql;
    }
  }

  lemma StuckIsUnsound(o: Outline, base: Id, source: Id)
    requires Stuck(o, base, source)
    ensures !Sound(o.shape)
  {
  }

  lemma FreshPair(pairs: seq<CellPair>, start: Outline, i: nat)
    requires Fresh(pairs, start) && i < |pairs|
    ensures Consistent(pairs, start.nextId, start) && start.deleted == {} && pairs[i].sqlCellId < start.nextId
  {
    assert PairConsistent(pairs[i], start.nextId, start, i);
    hide Sound, OnlyAdded;
  }

  /** Once the plan has given the cell a chart, that chart draws it. */
  lemma HungAfterAdding(pairs: seq<CellPair>, start: Outline, ops: seq<CanvasOp>, i: nat, j: nat)
    requires Fresh(pairs, start) && i < |pairs| && j < |ops| && AddsChart(pairs, ops, j, i)
    ensures Hung(OutlineRun(pairs, start, ops[..j + 1]), start.nextId, pairs[i].sqlCellId)
  {
    var before := OutlineRun(pairs, start, ops[..j]);
    FreshPair(pairs, start, i);
    hide Fresh, Consistent, OutlineStep, Hung, Stuck, AddsChart, DeletedBy, OutlineRun;
    ConsistentRun(pairs, start.nextId, start, ops[..j]);
    DeletedRun(pairs, start, ops[..j]);
    NotDeletedYet(pairs, ops, j, i, before);
    RunNext(pairs, start, ops, j);
    AddedIsHung(pairs, start.nextId, before, ops[j]);
  }

  lemma UnsafeRun(pairs: seq<CellPair>, start: Outline, ops: seq<CanvasOp>, i: nat, j: nat, k: nat)
    requires Fresh(pairs, start) && i < |pairs| && j < k < |ops| && AddsChart(pairs, ops, j, i)
    requires DrawsOn(ops[k], i) || ops[k] == Delete(i)
    ensures !Sound(OutlineRun(pairs, start, ops).shape)
  {
    hide *;
    FreshPair(pairs, start, i);
    HungUntil(pairs, start, ops, i, j, k);
    StuckAfter(pairs, start, ops, i, k);
    StuckIsUnsound(OutlineRun(pairs, start, ops), start.nextId, pairs[i].sqlCellId);
  }

  lemma HungUntil(pairs: seq<CellPair>, start: Outline, ops: seq<CanvasOp>, i: nat, j: nat, k: nat)
    requires Fresh(pairs, start) && i < |pairs| && j < k < |ops| && AddsChart(pairs, ops, j, i)
    ensures Hung(OutlineRun(pairs, start, ops[..k]), start.nextId, pairs[i].sqlCellId) && pairs[i].chartCellId.None?
  {
    hide *;
    ChartlessPair(pairs, ops, j, i);
    FreshPair(pairs, start, i);
    HungAfterAdding(pairs, start, ops, i, j);
    assert ops[..k][..j + 1] == ops[..j + 1];
    StuckRun(pairs, start.nextId, start, ops[..k], j + 1, pairs[i].sqlCellId);
  }

  lemma StuckAfter(pairs: seq<CellPair>, start: Outline, ops: seq<CanvasOp>, i: nat, k: nat)
    requires Consistent(pairs, start.nextId, start) && i < |pairs| && k < |ops| && pairs[i].chartCellId.None?
    requires pairs[i].sqlCellId < start.nextId && (DrawsOn(ops[k], i) || ops[k] == Delete(i))
    requires Hung(OutlineRun(pairs, start, ops[..k]), start.nextId, pairs[i].sqlCellId)
    ensures Stuck(OutlineRun(pairs, start, ops), start.nextId, pairs[i].sqlCellId)
  {
    hide *;
    ConsistentRun(pairs, start.nextId, start, ops[..k]);
    SecondUseSticks(pairs, start.nextId, OutlineRun(pairs, start, ops[..k]), ops[k], i);
    RunNext(pairs, start, ops, k);
    StuckRun(pairs, start.nextId, start, ops, k + 1, pairs[i].sqlCellId);
  }

  lemma ChartlessPair(pairs: seq<CellPair>, ops: seq<CanvasOp>, j: nat, i: nat)
    requires j < |ops| && i < |pairs| && AddsChart(pairs, ops, j, i)
    ensures pairs[i].chartCellId.None?
  {
  }

  lemma RunNext(pairs: seq<CellPair>, start: Outline, ops: seq<CanvasOp>, k: nat)
    requires k < |ops|
    ensures OutlineRun(pairs, start, ops[..k + 1]) == OutlineStep(pairs, OutlineRun(pairs, start, ops[..k]), ops[k])
  {
    hide OutlineStep;
    assert ops[..k + 1][..k] == ops[..k];
  }

  lemma NotDeletedYet(pairs: seq<CellPair>, ops: seq<CanvasOp>, j: nat, i: nat, o: Outline)
    requires j < |ops| && i < |pairs| && AddsChart(pairs, ops, j, i) && DeletedBy(pairs, ops[..j], o)
    ensures i !in o.deleted && DrawsOn(ops[j], i) && pairs[i].chartCellId.None?
  {
    forall d | 0 <= d < |ops[..j]|
      ensures ops[..j][d] != Delete(i)
    {
      assert ops[..j][d] == ops[d];
    }
  }

  /** Charts stay sound exactly under a safe plan. */
  lemma SoundIffSafe(pairs: seq<CellPair>, start: Outline, ops: seq<CanvasOp>)
    requires Fresh(pairs, start)
    ensures Sound(OutlineRun(pairs, start, ops).shape) <==> Safe(pairs, ops)
  {
    hide Sound, OutlineRun, AddsChart, DrawsOn, Fresh;
    if Safe(pairs, ops) {
      SafeRun(pairs, start, ops);
    } else {
      var i: nat, j: nat, k: nat :| i < |pairs| && j < k < |ops| && AddsChart(pairs, ops, j, i) &&
                                    (DrawsOn(ops[k], i) || ops[k] == Delete(i));
      UnsafeRun(pairs, start, ops, i, j, k);
    }
  }

  // ---------- From cells to shapes and back ----------

  /** Every chart draws one live SQL cell of the notebook, and no two draw the same. */
  ghost predicate CellsIntact(cells: seq<Cell>, nextId: Id)
  {
    UniqueIds(cells, nextId) &&
    (forall c :: c in cells && c.IsChart() ==> HasSql(cells, c.content.value.chart.CellId())) &&
    forall c, d :: c in cells && d in cells && c.IsChart() && d.IsChart() && c.id != d.id ==>
      !c.Draws(d.content.value.chart.CellId())
  }

  /** The chart cells, each with the cell it draws. */
  ghost function ChartsOf(cells: seq<Cell>, nextId: Id): (charts: map<Id, Id>)
    requires UniqueIds(cells, nextId)
    ensures forall k :: 0 <= k < |cells| && cells[k].IsChart() ==>
              cells[k].id in charts && cells[k].Draws(charts[cells[k].id])
    ensures forall id :: id in charts ==> exists k :: 0 <= k < |cells| && cells[k].IsChart() && cells[k].id == id
  {
    map k | 0 <= k < |cells| && cells[k].IsChart() :: cells[k].id := cells[k].content.value.chart.CellId()
  }

  ghost function ShapeOf(cells: seq<Cell>, nextId: Id): (shape: Shape)
    requires UniqueIds(cells, nextId)
    ensures HasShape(cells, nextId, shape)
  {
    var shape := Shape(set c | c in cells && c.IsSql() :: c.id, ChartsOf(cells, nextId));
    assert forall id :: HasSql(cells, id) <==> id in shape.sql;
    assert forall id :: HasChart(cells, id) <==> id in shape.charts;
    shape
  }

  lemma IntactIffSound(cells: seq<Cell>, nextId: Id, shape: Shape)
    requires HasShape(cells, nextId, shape)
    ensures CellsIntact(cells, nextId) <==> Sound(shape)
  {
    if CellsIntact(cells, nextId) {
      forall c | c in shape.charts
        ensures shape.charts[c] in shape.sql
      {
        assert HasChart(cells, c);
      }
      forall c, d | c in shape.charts && d in shape.charts && c != d
        ensures shape.charts[c] != shape.charts[d]
      {
        assert HasChart(cells, c) && HasChart(cells, d);
      }
    }
    if Sound(shape) {
      forall c | c in cells && c.IsChart()
        ensures HasSql(cells, c.content.value.chart.CellId())
      {
        assert HasChart(cells, c.id);
      }
      forall c, d | c in cells && d in cells && c.IsChart() && d.IsChart() && c.id != d.id
        ensures !c.Draws(d.content.value.chart.CellId())
      {
        assert HasChart(cells, c.id) && HasChart(cells, d.id);
      }
    }
  }

  lemma {:induction false} ChartForIs(cells: seq<Cell>, n: nat, source: Id)
    requires n <= |cells|
    ensures var chart := ChartFor(cells, n, source);
            if chart.Some? then exists k :: 0 <= k < n && cells[k].Draws(source) && cells[k].id == chart.value
            else forall k :: 0 <= k < n ==> !cells[k].Draws(source)
  {
    if n > 0 {
      ChartForIs(cells, n - 1, source);
    }
  }

  /** The pairs are the SQL cells, in order. */
  ghost predicate PairsAt(cells: seq<Cell>, n: nat, pairs: seq<CellPair>, positions: seq<nat>)
    requires n <= |cells|
  {
    |positions| == |pairs| &&
    (forall i :: 0 <= i < |pairs| ==>
       positions[i] < n && cells[positions[i]].IsSql() && pairs[i] == PairOf(cells, cells[positions[i]])) &&
    forall i, j :: 0 <= i < j < |pairs| ==> positions[i] < positions[j]
  }

  lemma NoPositions(cells: seq<Cell>)
    ensures PairsAt(cells, 0, [], [])
  {
  }

  lemma AddPosition(cells: seq<Cell>, n: nat, pairs: seq<CellPair>, positions: seq<nat>)
    requires n < |cells| && PairsAt(cells, n, pairs, positions)
    ensures PairsAt(cells, n + 1, pairs, positions)
    ensures cells[n].IsSql() ==> PairsAt(cells, n + 1, pairs + [PairOf(cells, cells[n])], positions + [n])
  {
    hide PairOf;
  }

  lemma {:induction false} PairsHavePositions(cells: seq<Cell>, n: nat) returns (positions: seq<nat>)
    requires n <= |cells|
    ensures PairsAt(cells, n, PairsOf(cells, n), positions)
  {
    hide PairOf, PairsAt;
    if n == 0 {
      positions := [];
      NoPositions(cells);
    } else {
      positions := PairsHavePositions(cells, n - 1);
      AddPosition(cells, n - 1, PairsOf(cells, n - 1), positions);
      if cells[n - 1].IsSql() {
        positions := positions + [n - 1];
      }
    }
  }

  function Opening(shape: Shape, nextId: Id): Outline
  {
    Outline(shape, nextId, {}, [], [], Changes(0, 0, 0))
  }

  lemma PairFits(cells: seq<Cell>, nextId: Id, shape: Shape, cell: Cell, i: nat)
    requires HasShape(cells, nextId, shape) && cell in cells && cell.IsSql()
    ensures PairConsistent(PairOf(cells, cell), nextId, Opening(shape, nextId), i)
    ensures PairOf(cells, cell).chartCellId.None? ==> !Drawn(shape, cell.id)
  {
    var pair := PairOf(cells, cell);
    ChartForIs(cells, |cells|, cell.id);
    assert HasSql(cells, cell.id);
    OneKind(cells, nextId, shape);
    if pair.chartCellId.Some? {
      var k :| 0 <= k < |cells| && cells[k].Draws(cell.id) && cells[k].id == pair.chartCellId.value;
      assert HasChart(cells, cells[k].id);
    } else {
      forall c | c in shape.charts
        ensures shape.charts[c] != cell.id
      {
        assert HasChart(cells, c);
        var chart :| chart in cells && chart.IsChart() && chart.id == c;
        assert chart.Draws(shape.charts[c]);
      }
    }
  }

  /** No id is both an SQL cell's and a chart cell's. */
  lemma OneKind(cells: seq<Cell>, nextId: Id, shape: Shape)
    requires HasShape(cells, nextId, shape)
    ensures forall id :: id in shape.sql ==> id !in shape.charts && id < nextId
    ensures forall id :: id in shape.charts ==> id < nextId
  {
    forall id | id in shape.sql
      ensures id !in shape.charts && id < nextId
    {
      assert HasSql(cells, id);
      var c :| c in cells && c.IsSql() && c.id == id;
      forall d | d in cells && d.IsChart()
        ensures d.id != id
      {
        var i :| 0 <= i < |cells| && cells[i] == c;
        var j :| 0 <= j < |cells| && cells[j] == d;
      }
    }
    forall id | id in shape.charts
      ensures id < nextId
    {
      assert HasChart(cells, id);
    }
  }

  lemma PairsFit(cells: seq<Cell>, nextId: Id, shape: Shape)
    requires HasShape(cells, nextId, shape)
    ensures Consistent(Pairs(cells), nextId, Opening(shape, nextId))
    ensures OnlyAdded(Pairs(cells), [], Opening(shape, nextId))
  {
    var pairs, start := Pairs(cells), Opening(shape, nextId);
    var positions := PairsHavePositions(cells, |cells|);
    OneKind(cells, nextId, shape);
    assert DistinctPairs(pairs);
    forall i | 0 <= i < |pairs|
      ensures PairConsistent(pairs[i], nextId, start, i)
      ensures pairs[i].chartCellId.None? ==> !Drawn(shape, pairs[i].sqlCellId)
    {
      PairFits(cells, nextId, shape, cells[positions[i]], i);
    }
    hide HasShape, PairConsistent, PairsOf, Drawn;
  }
}
