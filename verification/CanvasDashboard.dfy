/**
 The dashboard after applying a canvas plan: backend/src/canvas/service.rs and
 backend/src/dashboard/service.rs.
 */
module CanvasDashboard {
  import opened Wrappers
  import opened CanvasPlan
  import opened CanvasStore
  import opened CanvasIntegrity
  import opened CanvasResults
  import GridPacker

  // ---------- The dashboard shows distinct live charts ----------

  /** Each entry shows a chart cell of the notebook, and no chart is shown twice. */
  ghost predicate DashboardIntact(db: Db)
  {
    db.dashboard.Some? ==>
      DistinctEntries(db.dashboard.value) && forall l :: l in db.dashboard.value ==> HasChart(db.cells, l.cellId)
  }

  predicate DistinctEntries(layout: seq<GridPacker.Layout>)
  {
    forall i, j :: 0 <= i < j < |layout| ==> layout[i].cellId != layout[j].cellId
  }

  /** Charts there at the start are left or were removed; those queued are new and left. */
  ghost predicate Tidy(start: Outline, o: Outline)
  {
    (forall c :: c in start.shape.charts ==> c in o.shape.charts || c in o.removedIds) &&
    (forall r :: r in o.removedIds ==> r < start.nextId) &&
    (forall q :: q in o.queued ==> start.nextId <= q < o.nextId && q in o.shape.charts) &&
    forall i, j :: 0 <= i < j < |o.queued| ==> o.queued[i] != o.queued[j]
  }

  lemma TidyQueue(start: Outline, o: Outline, next: Outline, chart: Id)
    requires Tidy(start, o) && chart >= o.nextId && start.nextId <= o.nextId <= next.nextId && chart < next.nextId
    requires next.queued == o.queued + [chart] && next.removedIds == o.removedIds && chart in next.shape.charts
    requires forall c :: c in o.shape.charts ==> c in next.shape.charts
    ensures Tidy(start, next)
  {
    forall q | q in next.queued
      ensures start.nextId <= q < next.nextId && q in next.shape.charts
    {
      assert q in o.queued || q == chart;
    }
    assert forall k :: 0 <= k < |o.queued| ==> o.queued[k] in o.queued;
  }

  lemma TidyStep(pairs: seq<CellPair>, start: Outline, o: Outline, op: CanvasOp)
    requires Consistent(pairs, start.nextId, o) && Tidy(start, o)
    ensures Tidy(start, OutlineStep(pairs, o, op))
  {
    var next := OutlineStep(pairs, o, op);
    if op.Create? && op.chart.Some? {
      TidyQueue(start, o, next, o.nextId + 1);
    } else if op.Update? && op.index !in o.deleted && op.index < |pairs| && op.chart.Some? &&
              pairs[op.index].chartCellId.None? {
      TidyQueue(start, o, next, o.nextId);
    } else if op.Delete? && op.index !in o.deleted && op.index < |pairs| {
      assert PairConsistent(pairs[op.index], start.nextId, o, op.index);
      if pairs[op.index].chartCellId.Some? {
        assert next.removedIds[|o.removedIds|] == pairs[op.index].chartCellId.value;
        assert forall r :: r in o.removedIds ==> r in next.removedIds;
      }
    }
  }

  lemma {:induction false} TidyRun(pairs: seq<CellPair>, start: Outline, ops: seq<CanvasOp>)
    requires Consistent(pairs, start.nextId, start) && Tidy(start, start)
    ensures Tidy(start, OutlineRun(pairs, start, ops))
  {
    hide Consistent, OutlineStep, Tidy;
    if ops != [] {
      var n := |ops| - 1;
      TidyRun(pairs, start, ops[..n]);
      ConsistentRun(pairs, start.nextId, start, ops[..n]);
      TidyStep(pairs, start, OutlineRun(pairs, start, ops[..n]), ops[n]);
    }
  }

  lemma {:induction false} RetainedDistinct(layout: seq<GridPacker.Layout>, removed: seq<Id>)
    requires DistinctEntries(layout)
    ensures DistinctEntries(GridPacker.Retained(layout, removed))
  {
    if layout != [] {
      RetainedDistinct(layout[1..], removed);
      var kept := GridPacker.Retained(layout[1..], removed);
      forall l | l in kept
        ensures l.cellId != layout[0].cellId
      {
        var k :| 1 <= k < |layout| && layout[k] == l;
      }
    }
  }

  lemma PlacedIds(c: GridPacker.Cursor, charts: seq<GridPacker.ChartRequest>)
    requires c.Valid()
    ensures forall i :: 0 <= i < |charts| ==> GridPacker.Placed(c, charts)[i].cellId == charts[i].cellId
  {
    hide GridPacker.Pack;
  }

  /** The entries after appending: old ones not removed, then the new ones. */
  lemma AppendedEntries(layout: seq<GridPacker.Layout>, removed: seq<Id>, queued: seq<GridPacker.ChartRequest>,
      after: seq<GridPacker.Layout>)
    requires GridPacker.AppendCharts(layout, removed, queued) == Ok(after) && DistinctEntries(layout)
    requires forall l :: l in layout ==> l.cellId !in CellIds(queued)
    requires forall i, j :: 0 <= i < j < |queued| ==> queued[i].cellId != queued[j].cellId
    ensures DistinctEntries(after) && |after| <= GridPacker.MAX_CHARTS_PER_DASHBOARD
    ensures forall l :: l in after ==>
              (exists k :: k in layout && k.cellId == l.cellId && l.cellId !in removed) || l.cellId in CellIds(queued)
  {
    var kept := GridPacker.Retained(layout, removed);
    var placed := GridPacker.Placed(GridPacker.Below(kept), queued);
    RetainedDistinct(layout, removed);
    PlacedIds(GridPacker.Below(kept), queued);
    hide GridPacker.Retained, GridPacker.Placed, GridPacker.Below;
    assert after == kept + placed;
    forall i | 0 <= i < |queued|
      ensures placed[i].cellId in CellIds(queued)
    {
      assert CellIds(queued)[i] == placed[i].cellId;
    }
    forall l | l in after
      ensures (exists k :: k in layout && k.cellId == l.cellId && l.cellId !in removed) || l.cellId in CellIds(queued)
    {
      if l !in kept {
        var i :| 0 <= i < |placed| && placed[i] == l;
      }
    }
    forall i, j | 0 <= i < j < |after|
      ensures after[i].cellId != after[j].cellId
    {
      if i < |kept| <= j {
        assert after[i] in kept && after[j] == placed[j - |kept|];
      }
    }
  }

  lemma DashboardAfter(faults: set<nat>, db: Db, ops: seq<CanvasOp>)
    requires OpsOutcome(faults, db, ops).Ok?
    requires ApplyAll(faults, Pairs(db.cells), CanvasStore.Start(db), ops).Ok?
    ensures var p := ApplyAll(faults, Pairs(db.cells), CanvasStore.Start(db), ops).value;
            var after := OpsOutcome(faults, db, ops).value.0.dashboard;
            if p.queued == [] && p.removedIds == [] then after == db.dashboard
            else db.dashboard.Some? && after.Some? &&
                 GridPacker.AppendCharts(db.dashboard.value, p.removedIds, p.queued) == Ok(after.value)
  {
    hide PairsOf, GridPacker.AppendCharts;
    KeepsDashboard(faults, Pairs(db.cells), CanvasStore.Start(db), ops);
    hide ApplyAll;
  }

  lemma {:induction false} KeepsDashboard(faults: set<nat>, pairs: seq<CellPair>, p: Progress, ops: seq<CanvasOp>)
    requires ApplyAll(faults, pairs, p, ops).Ok?
    ensures ApplyAll(faults, pairs, p, ops).value.db.dashboard == p.db.dashboard
  {
    if ops != [] {
      KeepsDashboard(faults, pairs, p, ops[..|ops| - 1]);
      OneKeepsDashboard(faults, pairs, ApplyAll(faults, pairs, p, ops[..|ops| - 1]).value, ops[|ops| - 1]);
      hide ApplyOne;
    }
  }

  lemma OneKeepsDashboard(faults: set<nat>, pairs: seq<CellPair>, p: Progress, op: CanvasOp)
    requires ApplyOne(faults, pairs, p, op).Ok?
    ensures ApplyOne(faults, pairs, p, op).value.db.dashboard == p.db.dashboard
  {
  }

  /** A dashboard of distinct live charts stays one, whatever the operations. */
  lemma DashboardStaysIntact(faults: set<nat>, db: Db, ops: seq<CanvasOp>)
    requires UniqueIds(db.cells, db.nextId) && DashboardIntact(db) && OpsOutcome(faults, db, ops).Ok?
    ensures DashboardIntact(OpsOutcome(faults, db, ops).value.0)
  {
    var shape := ShapeOf(db.cells, db.nextId);
    var pairs, start := Pairs(db.cells), Opening(shape, db.nextId);
    var o := OutlineRun(pairs, start, ops);
    assert start.shape == shape && start.nextId == db.nextId && Tidy(start, start) by {
      hide Pairs, HasShape;
    }
    hide *;
    OutcomeOutlines(faults, db, ops, shape);
    OpsRun(faults, db, ops);
    DashboardAfter(faults, db, ops);
    TidyRun(pairs, start, ops);
    var p := ApplyAll(faults, pairs, CanvasStore.Start(db), ops).value;
    OutlineShape(o, p);
    TidyDashboard(db, shape, start, o, p, OpsOutcome(faults, db, ops).value.0);
  }

  lemma TidyDashboard(db: Db, shape: Shape, start: Outline, o: Outline, p: Progress, after: Db)
    requires HasShape(db.cells, db.nextId, shape) && start.shape == shape && start.nextId == db.nextId && Tidy(start, o)
    requires HasShape(p.db.cells, p.db.nextId, o.shape) && o.queued == CellIds(p.queued) && o.removedIds == p.removedIds
    requires DashboardIntact(db) && after.cells == p.db.cells
    requires if p.queued == [] && p.removedIds == [] then after.dashboard == db.dashboard
             else db.dashboard.Some? && after.dashboard.Some? &&
                  GridPacker.AppendCharts(db.dashboard.value, p.removedIds, p.queued) == Ok(after.dashboard.value)
    ensures DashboardIntact(after)
  {
    ShapeCharts(db.cells, db.nextId, shape);
    ShapeCharts(p.db.cells, p.db.nextId, o.shape);
    hide HasShape, HasChart, GridPacker.AppendCharts;
    if db.dashboard.Some? && !(p.queued == [] && p.removedIds == []) {
      forall i, j | 0 <= i < j < |p.queued|
        ensures p.queued[i].cellId != p.queued[j].cellId
      {
        assert o.queued[i] != o.queued[j];
      }
      forall l | l in db.dashboard.value
        ensures l.cellId !in o.queued && l.cellId in shape.charts
      {
      }
      AppendedEntries(db.dashboard.value, p.removedIds, p.queued, after.dashboard.value);
      hide DistinctEntries, CellIds;
    }
  }

  lemma ShapeCharts(cells: seq<Cell>, nextId: Id, shape: Shape)
    requires HasShape(cells, nextId, shape)
    ensures forall id :: HasChart(cells, id) <==> id in shape.charts
    ensures forall id :: id in shape.charts ==> id < nextId
  {
    OneKind(cells, nextId, shape);
  }

  // ---------- The dashboard's charts stay apart and few ----------

  lemma {:induction false} RetainedClear(layout: seq<GridPacker.Layout>, removed: seq<Id>)
    requires GridPacker.ClearFrom(layout, 0)
    ensures GridPacker.ClearFrom(GridPacker.Retained(layout, removed), 0)
  {
    hide GridPacker.Disjoint;
    if layout != [] {
      var rest := layout[1..];
      forall i, j | 0 <= i < j < |rest|
        ensures GridPacker.Disjoint(rest[i], rest[j])
      {
        assert rest[i] == layout[i + 1] && rest[j] == layout[j + 1];
      }
      RetainedClear(rest, removed);
      var kept := GridPacker.Retained(rest, removed);
      forall k | 0 <= k < |kept|
        ensures GridPacker.Disjoint(layout[0], kept[k])
      {
        assert kept[k] in kept && kept[k] in rest;
        var m :| 0 <= m < |rest| && rest[m] == kept[k];
        assert layout[m + 1] == kept[k];
      }
      PrependClear(layout[0], kept);
    }
  }

  lemma PrependClear(first: GridPacker.Layout, kept: seq<GridPacker.Layout>)
    requires GridPacker.ClearFrom(kept, 0) && forall k :: 0 <= k < |kept| ==> GridPacker.Disjoint(first, kept[k])
    ensures GridPacker.ClearFrom([first] + kept, 0)
  {
    hide GridPacker.Disjoint;
    var all := [first] + kept;
    forall i, j | 0 <= i < j < |all|
      ensures GridPacker.Disjoint(all[i], all[j])
    {
      assert all[j] == kept[j - 1];
      assert i > 0 ==> all[i] == kept[i - 1];
    }
  }

  /** What appending needs of a dashboard: nothing kept saturates, and the last new row has a 16-bit number. */
  ghost predicate NewChartsFit(layout: seq<GridPacker.Layout>, removed: seq<Id>, queued: seq<GridPacker.ChartRequest>)
  {
    var kept := GridPacker.Retained(layout, removed);
    GridPacker.LastRowFits(GridPacker.Below(kept), queued) && forall l :: l in kept ==> !l.Saturates()
  }

  lemma AppendKeepsClear(layout: seq<GridPacker.Layout>, removed: seq<Id>, queued: seq<GridPacker.ChartRequest>)
    requires GridPacker.ClearFrom(layout, 0) && NewChartsFit(layout, removed, queued)
    requires GridPacker.AppendCharts(layout, removed, queued).Ok?
    ensures var after := GridPacker.AppendCharts(layout, removed, queued).value;
            GridPacker.ClearFrom(after, 0) && |after| <= GridPacker.MAX_CHARTS_PER_DASHBOARD
  {
    var kept := GridPacker.Retained(layout, removed);
    var after := GridPacker.AppendCharts(layout, removed, queued).value;
    RetainedClear(layout, removed);
    GridPacker.AppendedChartsDoNotOverlap(layout, removed, queued);
    hide GridPacker.AppendCharts, GridPacker.Retained, GridPacker.MaxBottom, GridPacker.Disjoint,
         GridPacker.LastRowFits;
    assert after[..|kept|] == kept;
    forall i, j | 0 <= i < j < |after|
      ensures GridPacker.Disjoint(after[i], after[j])
    {
      if j < |kept| {
        assert after[i] == kept[i] && after[j] == kept[j];
      } else if i < |kept| {
        assert after[i] == kept[i] && kept[i] in kept;
      }
    }
  }

  /**
   Charts that did not overlap still do not after a plan whose new charts fit, and a plan never
   leaves a changed dashboard with more than 30.
   */
  lemma DashboardStaysClear(faults: set<nat>, db: Db, ops: seq<CanvasOp>)
    requires db.dashboard.Some? && GridPacker.ClearFrom(db.dashboard.value, 0) && OpsOutcome(faults, db, ops).Ok?
    requires ApplyAll(faults, Pairs(db.cells), CanvasStore.Start(db), ops).Ok?
    requires var p := ApplyAll(faults, Pairs(db.cells), CanvasStore.Start(db), ops).value;
             NewChartsFit(db.dashboard.value, p.removedIds, p.queued)
    ensures var after := OpsOutcome(faults, db, ops).value.0.dashboard;
            after.Some? && GridPacker.ClearFrom(after.value, 0) &&
            (after == db.dashboard || |after.value| <= GridPacker.MAX_CHARTS_PER_DASHBOARD)
  {
    DashboardAfter(faults, db, ops);
    hide OpsOutcome, ApplyAll, Pairs, GridPacker.AppendCharts, GridPacker.ClearFrom, NewChartsFit;
    var p := ApplyAll(faults, Pairs(db.cells), CanvasStore.Start(db), ops).value;
    if !(p.queued == [] && p.removedIds == []) {
      AppendKeepsClear(db.dashboard.value, p.removedIds, p.queued);
    }
  }

  // ---------- Room that can be seen before the plan is applied ----------

  /** There is room for a full dashboard of charts below each chart. */
  predicate Spacious(layout: seq<GridPacker.Layout>)
  {
    forall l :: l in layout ==>
      l.y + l.height + GridPacker.MAX_CHART_HEIGHT * GridPacker.MAX_CHARTS_PER_DASHBOARD < GridPacker.U16_MODULUS
  }

  lemma SpaciousFits(layout: seq<GridPacker.Layout>, removed: seq<Id>, queued: seq<GridPacker.ChartRequest>)
    requires Spacious(layout) && |queued| <= GridPacker.MAX_CHARTS_PER_DASHBOARD
    ensures NewChartsFit(layout, removed, queued)
  {
    var kept := GridPacker.Retained(layout, removed);
    assert GridPacker.MAX_CHART_HEIGHT * |queued| <= GridPacker.MAX_CHART_HEIGHT * GridPacker.MAX_CHARTS_PER_DASHBOARD;
    hide GridPacker.Retained, GridPacker.LastRowFits;
    GridPacker.RoomIsEnough(GridPacker.Below(kept), queued);
  }

  lemma SpaciousDashboardStaysClear(faults: set<nat>, db: Db, ops: seq<CanvasOp>)
    requires db.dashboard.Some? && GridPacker.ClearFrom(db.dashboard.value, 0) && Spacious(db.dashboard.value)
    requires OpsOutcome(faults, db, ops).Ok?
    ensures var after := OpsOutcome(faults, db, ops).value.0.dashboard;
            after.Some? && GridPacker.ClearFrom(after.value, 0)
  {
    OpsRun(faults, db, ops);
    DashboardAfter(faults, db, ops);
    hide OpsOutcome, ApplyAll, Pairs, GridPacker.ClearFrom, NewChartsFit, Spacious, GridPacker.Retained,
         GridPacker.Placed;
    var p := ApplyAll(faults, Pairs(db.cells), CanvasStore.Start(db), ops).value;
    if !(p.queued == [] && p.removedIds == []) {
      SpaciousFits(db.dashboard.value, p.removedIds, p.queued);
      hide GridPacker.AppendCharts;
      DashboardStaysClear(faults, db, ops);
    }
  }
}
