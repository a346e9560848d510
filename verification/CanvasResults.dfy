/**
 The results about applying a canvas plan (backend/src/canvas/service.rs) to the store, stated on
 the cells, the dashboard and the canvases themselves.
 */
module CanvasResults {
  import opened Wrappers
  import opened Sequences
  import opened CanvasPlan
  import opened CanvasStore
  import opened CanvasIntegrity
  import GridPacker

  // ---------- Cells and charts ----------

  lemma OpsRun(faults: set<nat>, db: Db, ops: seq<CanvasOp>)
    requires OpsOutcome(faults, db, ops).Ok?
    ensures ApplyAll(faults, Pairs(db.cells), CanvasStore.Start(db), ops).Ok?
    ensures var p := ApplyAll(faults, Pairs(db.cells), CanvasStore.Start(db), ops).value;
            var (after, changes) := OpsOutcome(faults, db, ops).value;
            after.cells == p.db.cells && after.nextId == p.db.nextId && changes == p.changes
  {
    hide ApplyAll, PairsOf, GridPacker.AppendCharts;
  }

  lemma OpeningOutlines(db: Db, shape: Shape)
    requires HasShape(db.cells, db.nextId, shape)
    ensures Outlines(Opening(shape, db.nextId), CanvasStore.Start(db))
  {
    hide HasShape, MaxOrder;
  }

  /** The outline of what a successful run leaves. */
  lemma OutcomeOutlines(faults: set<nat>, db: Db, ops: seq<CanvasOp>, shape: Shape)
    requires HasShape(db.cells, db.nextId, shape) && OpsOutcome(faults, db, ops).Ok?
    ensures ApplyAll(faults, Pairs(db.cells), CanvasStore.Start(db), ops).Ok?
    ensures Consistent(Pairs(db.cells), db.nextId, Opening(shape, db.nextId))
    ensures OnlyAdded(Pairs(db.cells), [], Opening(shape, db.nextId))
    ensures Outlines(OutlineRun(Pairs(db.cells), Opening(shape, db.nextId), ops),
                     ApplyAll(faults, Pairs(db.cells), CanvasStore.Start(db), ops).value)
  {
    hide *;
    OpsRun(faults, db, ops);
    PairsFit(db.cells, db.nextId, shape);
    OpeningOutlines(db, shape);
    RunOutlines(faults, Pairs(db.cells), db.nextId, CanvasStore.Start(db), Opening(shape, db.nextId), ops);
  }

  lemma OpeningIsFresh(pairs: seq<CellPair>, shape: Shape, nextId: Id)
    requires Consistent(pairs, nextId, Opening(shape, nextId)) && OnlyAdded(pairs, [], Opening(shape, nextId)) &&
             Sound(shape)
    ensures Fresh(pairs, Opening(shape, nextId))
  {
    hide Consistent, OnlyAdded, Sound;
  }

  /**
   From intact cells, a successful run leaves intact cells exactly when the operations are safe:
   no cell that had no chart and gets one is drawn on again or deleted.
   */
  lemma IntactIffSafe(faults: set<nat>, db: Db, ops: seq<CanvasOp>)
    requires CellsIntact(db.cells, db.nextId) && OpsOutcome(faults, db, ops).Ok?
    ensures var (after, _) := OpsOutcome(faults, db, ops).value;
            CellsIntact(after.cells, after.nextId) <==> Safe(Pairs(db.cells), ops)
  {
    assert UniqueIds(db.cells, db.nextId);
    var shape := ShapeOf(db.cells, db.nextId);
    hide *;
    IntactIffSound(db.cells, db.nextId, shape);
    OutcomeOutlines(faults, db, ops, shape);
    OpeningIsFresh(Pairs(db.cells), shape, db.nextId);
    OpsRun(faults, db, ops);
    SoundIffSafe(Pairs(db.cells), Opening(shape, db.nextId), ops);
    var p := ApplyAll(faults, Pairs(db.cells), CanvasStore.Start(db), ops).value;
    var o := OutlineRun(Pairs(db.cells), Opening(shape, db.nextId), ops);
    OutlineShape(o, p);
    IntactIffSound(p.db.cells, p.db.nextId, o.shape);
  }

  lemma OutlineShape(o: Outline, p: Progress)
    requires Outlines(o, p)
    ensures HasShape(p.db.cells, p.db.nextId, o.shape) && o.changes == p.changes
    ensures o.queued == CellIds(p.queued) && o.removedIds == p.removedIds
  {
    hide HasShape, CellIds;
  }

  // ---------- Conservation ----------

  function SqlCount(cells: seq<Cell>): nat
  {
    if cells == [] then 0 else SqlCount(cells[..|cells| - 1]) + if cells[|cells| - 1].IsSql() then 1 else 0
  }

  lemma {:induction false} SqlCountIsSize(cells: seq<Cell>, nextId: Id)
    requires UniqueIds(cells, nextId)
    ensures SqlCount(cells) == |set c | c in cells && c.IsSql() :: c.id|
  {
    if cells != [] {
      var n := |cells| - 1;
      var all := set c | c in cells && c.IsSql() :: c.id;
      var before := set c | c in cells[..n] && c.IsSql() :: c.id;
      SqlCountIsSize(cells[..n], nextId);
      Snoc(cells);
      if cells[n].IsSql() {
        assert cells[n].id !in before;
        assert all == before + {cells[n].id};
      } else {
        assert all == before;
      }
    }
  }

  lemma ShapeCounts(cells: seq<Cell>, nextId: Id, shape: Shape)
    requires HasShape(cells, nextId, shape)
    ensures SqlCount(cells) == |shape.sql|
  {
    var all := set c | c in cells && c.IsSql() :: c.id;
    SqlCountIsSize(cells, nextId);
    assert forall id :: id in all <==> HasSql(cells, id);
    assert all == shape.sql;
  }

  lemma ConservedStep(pairs: seq<CellPair>, base: Id, o: Outline, op: CanvasOp)
    requires Consistent(pairs, base, o)
    ensures var next := OutlineStep(pairs, o, op);
            |next.shape.sql| - next.changes.added + next.changes.removed ==
            |o.shape.sql| - o.changes.added + o.changes.removed
  {
    var next := OutlineStep(pairs, o, op);
    if op.Create? {
      assert o.nextId !in o.shape.sql;
    } else if op.Delete? && op.index < |pairs| && op.index !in o.deleted {
      LivePair(pairs, base, o, op.index);
      var pair := pairs[op.index];
      if pair.chartCellId.Some? {
        assert o.shape.sql - {pair.chartCellId.value} == o.shape.sql;
      }
      assert next.shape.sql == o.shape.sql - {pair.sqlCellId};
    }
  }

  lemma {:induction false} ConservedRun(pairs: seq<CellPair>, base: Id, start: Outline, ops: seq<CanvasOp>)
    requires Consistent(pairs, base, start)
    ensures var o := OutlineRun(pairs, start, ops);
            |o.shape.sql| - o.changes.added + o.changes.removed ==
            |start.shape.sql| - start.changes.added + start.changes.removed
  {
    hide Consistent, OutlineStep;
    if ops != [] {
      var n := |ops| - 1;
      ConservedRun(pairs, base, start, ops[..n]);
      ConsistentRun(pairs, base, start, ops[..n]);
      ConservedStep(pairs, base, OutlineRun(pairs, start, ops[..n]), ops[n]);
    }
  }

  /** Whatever the operations: SQL cells after = before + added - removed. */
  lemma SqlCellsAreConserved(faults: set<nat>, db: Db, ops: seq<CanvasOp>)
    requires UniqueIds(db.cells, db.nextId) && OpsOutcome(faults, db, ops).Ok?
    ensures var (after, changes) := OpsOutcome(faults, db, ops).value;
            SqlCount(after.cells) + changes.removed == SqlCount(db.cells) + changes.added
  {
    var shape := ShapeOf(db.cells, db.nextId);
    hide *;
    OutcomeOutlines(faults, db, ops, shape);
    OpsRun(faults, db, ops);
    var start := Opening(shape, db.nextId);
    var p := ApplyAll(faults, Pairs(db.cells), CanvasStore.Start(db), ops).value;
    var o := OutlineRun(Pairs(db.cells), start, ops);
    ConservedRun(Pairs(db.cells), db.nextId, start, ops);
    OutlineShape(o, p);
    ShapeCounts(p.db.cells, p.db.nextId, o.shape);
    ShapeCounts(db.cells, db.nextId, shape);
    OpeningIs(shape, db.nextId);
  }

  lemma OpeningIs(shape: Shape, nextId: Id)
    ensures Opening(shape, nextId).shape == shape && Opening(shape, nextId).changes == Changes(0, 0, 0)
  {
  }

  // ---------- The unsafe plans are accepted ----------

  lemma {:induction false} RetainedIsShorter(layout: seq<GridPacker.Layout>, removed: seq<Id>)
    ensures |GridPacker.Retained(layout, removed)| <= |layout|
  {
    if layout != [] {
      RetainedIsShorter(layout[1..], removed);
    }
  }

  lemma TwoOps(pairs: seq<CellPair>, start: Progress, a: CanvasOp, b: CanvasOp)
    requires ApplyOne({}, pairs, start, a).Ok?
    ensures ApplyAll({}, pairs, start, [a, b]) == ApplyOne({}, pairs, ApplyOne({}, pairs, start, a).value, b)
  {
    hide ApplyOne;
    var ops, one := [a, b], [a];
    assert ops[..1] == one && one[..0] == [];
    assert ApplyAll({}, pairs, start, one) == ApplyOne({}, pairs, start, a);
    assert ops[|ops| - 1] == b && ops[..|ops| - 1] == one;
  }

  /** Giving a chart to a cell without one succeeds while there is room. */
  lemma ChartIsAdded(pairs: seq<CellPair>, p: Progress, i: nat, chart: PlannedChart)
    requires i < |pairs| && i !in p.deleted && pairs[i].chartCellId.None? && |p.db.cells| < MAX_CELLS_PER_NOTEBOOK
    ensures var r := ApplyOne({}, pairs, p, Update(i, None, None, Some(chart)));
            r.Ok? && |r.value.queued| == |p.queued| + 1 && r.value.removedIds == p.removedIds &&
            r.value.deleted == p.deleted && |r.value.db.cells| == |p.db.cells| + 1 &&
            r.value.db.dashboard == p.db.dashboard
  {
  }

  lemma CellIsRemoved(pairs: seq<CellPair>, p: Progress, i: nat)
    requires i < |pairs| && i !in p.deleted && pairs[i].chartCellId.None?
    ensures var r := ApplyOne({}, pairs, p, Delete(i));
            r.Ok? && r.value.queued == p.queued && r.value.removedIds == p.removedIds &&
            r.value.db.dashboard == p.db.dashboard
  {
  }

  /** Without failing calls, a run whose operations all apply succeeds if the dashboard has room. */
  lemma RoomOnDashboard(db: Db, ops: seq<CanvasOp>)
    requires db.dashboard.Some? && ApplyAll({}, Pairs(db.cells), CanvasStore.Start(db), ops).Ok?
    requires var p := ApplyAll({}, Pairs(db.cells), CanvasStore.Start(db), ops).value;
             p.db.dashboard == db.dashboard && |db.dashboard.value| + |p.queued| <= GridPacker.MAX_CHARTS_PER_DASHBOARD
    ensures OpsOutcome({}, db, ops).Ok?
  {
    var p := ApplyAll({}, Pairs(db.cells), CanvasStore.Start(db), ops).value;
    RetainedIsShorter(db.dashboard.value, p.removedIds);
    hide ApplyAll, Pairs, GridPacker.Retained, GridPacker.Placed, GridPacker.Below;
  }

  lemma NotSafe(pairs: seq<CellPair>, i: nat, chart: PlannedChart, then_: CanvasOp)
    requires i < |pairs| && pairs[i].chartCellId.None? && (then_ == Delete(i) || DrawsOn(then_, i))
    ensures !Safe(pairs, [Update(i, None, None, Some(chart)), then_])
  {
    var ops := [Update(i, None, None, Some(chart)), then_];
    assert AddsChart(pairs, ops, 0, i);
    assert ops[1] == then_;
  }

  /**
   On every intact notebook with room, for every cell without a chart: giving it one and deleting
   the cell is accepted, and leaves a chart that draws nothing.
   */
  lemma ChartThenDeleteBreaks(db: Db, i: nat, chart: PlannedChart)
    requires CellsIntact(db.cells, db.nextId) && |db.cells| < MAX_CELLS_PER_NOTEBOOK
    requires db.dashboard.Some? && |db.dashboard.value| < GridPacker.MAX_CHARTS_PER_DASHBOARD
    requires i < |Pairs(db.cells)| && Pairs(db.cells)[i].chartCellId.None?
    ensures var ops := [Update(i, None, None, Some(chart)), Delete(i)];
            OpsOutcome({}, db, ops).Ok? &&
            var after := OpsOutcome({}, db, ops).value.0;
            !CellsIntact(after.cells, after.nextId)
  {
    var pairs, start := Pairs(db.cells), CanvasStore.Start(db);
    var ops := [Update(i, None, None, Some(chart)), Delete(i)];
    assert start.db.cells == db.cells && start.db.dashboard == db.dashboard && start.deleted == {} &&
           start.queued == [];
    hide *;
    ChartIsAdded(pairs, start, i, chart);
    TwoOps(pairs, start, ops[0], ops[1]);
    CellIsRemoved(pairs, ApplyOne({}, pairs, start, ops[0]).value, i);
    RoomOnDashboard(db, ops);
    NotSafe(pairs, i, chart, Delete(i));
    IntactIffSafe({}, db, ops);
  }

  /** Likewise, giving it two charts is accepted, and leaves two charts that draw one cell. */
  lemma DrawingTwiceBreaks(db: Db, i: nat, chart: PlannedChart, second: PlannedChart)
    requires CellsIntact(db.cells, db.nextId) && |db.cells| + 1 < MAX_CELLS_PER_NOTEBOOK
    requires db.dashboard.Some? && |db.dashboard.value| + 1 < GridPacker.MAX_CHARTS_PER_DASHBOARD
    requires i < |Pairs(db.cells)| && Pairs(db.cells)[i].chartCellId.None?
    ensures var ops := [Update(i, None, None, Some(chart)), Update(i, None, None, Some(second))];
            OpsOutcome({}, db, ops).Ok? &&
            var after := OpsOutcome({}, db, ops).value.0;
            !CellsIntact(after.cells, after.nextId)
  {
    var pairs, start := Pairs(db.cells), CanvasStore.Start(db);
    var ops := [Update(i, None, None, Some(chart)), Update(i, None, None, Some(second))];
    assert start.db.cells == db.cells && start.db.dashboard == db.dashboard && start.deleted == {} &&
           start.queued == [];
    assert DrawsOn(ops[1], i);
    hide *;
    ChartIsAdded(pairs, start, i, chart);
    TwoOps(pairs, start, ops[0], ops[1]);
    ChartIsAdded(pairs, ApplyOne({}, pairs, start, ops[0]).value, i, second);
    RoomOnDashboard(db, ops);
    NotSafe(pairs, i, chart, ops[1]);
    IntactIffSafe({}, db, ops);
  }
}
