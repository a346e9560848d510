/**
 From the model's answer to the notebook: backend/src/ai/dto.rs and backend/src/canvas/service.rs.
 What a cell of the plan asks for is what the notebook, its charts and the dashboard show.
 */
module CanvasAnswers {
  import opened Wrappers
  import opened CanvasPlan
  import opened CanvasRequest
  import opened CanvasStore
  import opened CanvasIntegrity
  import opened CanvasContents
  import opened CanvasEndToEnd

  ghost predicate Applies(faults: set<nat>, db: Db, cells: seq<CanvasPlanCell>)
  {
    UniqueIds(db.cells, db.nextId) && ResolveAll(cells, Queries(db.cells), |cells|).Ok? &&
    OpsOutcome(faults, db, ResolveAll(cells, Queries(db.cells), |cells|).value.ops).Ok?
  }

  ghost function OpsOf(db: Db, cells: seq<CanvasPlanCell>): seq<CanvasOp>
    requires ResolveAll(cells, Queries(db.cells), |cells|).Ok?
  {
    ResolveAll(cells, Queries(db.cells), |cells|).value.ops
  }

  ghost function After(faults: set<nat>, db: Db, cells: seq<CanvasPlanCell>): Db
    requires Applies(faults, db, cells)
  {
    OpsOutcome(faults, db, OpsOf(db, cells)).value.0
  }

  lemma OpOfCell(db: Db, cells: seq<CanvasPlanCell>) returns (at: seq<nat>)
    requires ResolveAll(cells, Queries(db.cells), |cells|).Ok?
    ensures ResolvedAt(cells, Queries(db.cells), |cells|, OpsOf(db, cells), at)
  {
    hide ResolveAll, ResolvedAt, Queries;
    PlanResolved(cells, Queries(db.cells));
    at :| ResolvedAt(cells, Queries(db.cells), |cells|, OpsOf(db, cells), at);
  }

  /**
   A plan cell that asks for a query that is not taken to be present: the notebook has that query and,
   right after it, the chart asked for, which the dashboard shows in the size asked for.
   */
  lemma AskedQueryIsThere(faults: set<nat>, db: Db, cells: seq<CanvasPlanCell>, m: nat)
    requires Applies(faults, db, cells) && m < |cells| && cells[m].action == CreateCell
    requires !Dropped(cells, Queries(db.cells), m)
    ensures exists op: CanvasOp, at: nat :: OpAsAsked(cells[m], op) && op.Create? &&
              at < |After(faults, db, cells).cells| && Created(After(faults, db, cells), db.nextId, op, at)
  {
    hide ResolveAll, OpsOutcome, Queries, UniqueIds, Created, Dropped;
    var at := OpOfCell(db, cells);
    var k :| 0 <= k < |at| && at[k] == m;
    var op := OpsOf(db, cells)[k];
    assert OpAsAsked(cells[m], op);
    var after := After(faults, db, cells);
    CreationIsThere(faults, db, OpsOf(db, cells), k);
    var j: nat :| j < |after.cells| && Created(after, db.nextId, op, j);
  }

  /** The plan cell would change the chart of the i-th query. */
  predicate AsksToDraw(cell: CanvasPlanCell, i: nat)
  {
    cell.action == UpdateCell && cell.targetCellIndex.Some? && cell.targetCellIndex.value == i + 1 && cell.chart.Some?
  }

  predicate AsksToDelete(cell: CanvasPlanCell, i: nat)
  {
    cell.action == DeleteCell && cell.targetCellIndex.Some? && cell.targetCellIndex.value == i + 1
  }

  lemma OpAsks(cell: CanvasPlanCell, op: CanvasOp, i: nat)
    requires OpAsAsked(cell, op)
    ensures AsksToDraw(cell, i) <==> DrawsAgain(op, i)
    ensures AsksToDelete(cell, i) <==> op == Delete(i)
  {
    hide ChartAsAsked;
  }

  lemma DrawingIsNotDropped(cells: seq<CanvasPlanCell>, queries: seq<string>, m: nat, i: nat)
    requires m < |cells| && AsksToDraw(cells[m], i) && i < |queries|
    ensures !Dropped(cells, queries, m)
  {
    hide TakenAsPresent;
  }

  /**
   The last plan cell to ask for a chart on the i-th query, whose chart is there and which no plan cell
   deletes: the chart cell shows what that plan cell asks for.
   */
  lemma AskedChartIsShown(faults: set<nat>, db: Db, cells: seq<CanvasPlanCell>, i: nat, was: Cell, m: nat)
    requires Applies(faults, db, cells) && i < |Pairs(db.cells)|
    requires was in db.cells && Pairs(db.cells)[i].chartCellId == Some(was.id)
    requires m < |cells| && AsksToDraw(cells[m], i) && forall n :: m < n < |cells| ==> !AsksToDraw(cells[n], i)
    requires forall n :: 0 <= n < |cells| ==> !AsksToDelete(cells[n], i)
    ensures exists planned, now :: ChartAsAsked(cells[m].chart.value, planned) &&
              now in After(faults, db, cells).cells && now.id == was.id && now.cellType == was.cellType &&
              now.content.Some? && Shows(now.content.value, Pairs(db.cells)[i].sqlCellId, planned)
  {
    hide ResolveAll, OpsOutcome, Queries, UniqueIds, Shows, Dropped, AsksToDraw, AsksToDelete, DrawsAgain, ChartAsAsked,
         Pairs, OpAsAsked;
    var queries, ops := Queries(db.cells), OpsOf(db, cells);
    var at := OpOfCell(db, cells);
    MatchesAtStart(db.nextId, db.cells);
    DrawingIsNotDropped(cells, queries, m, i);
    var k :| 0 <= k < |at| && at[k] == m;
    OpAsks(cells[m], ops[k], i);
    forall n | 0 <= n < |ops|
      ensures ops[n] != Delete(i)
      ensures k < n ==> !DrawsAgain(ops[n], i)
    {
      OpAsks(cells[at[n]], ops[n], i);
    }
    DrawnAsAsked(cells[m], ops[k], i);
    var after, planned := After(faults, db, cells), ops[k].chart.value;
    ChartShowsLastUpdate(faults, db, ops, i, was, k);
    var now :| now in after.cells && now.id == was.id && now.cellType == was.cellType && now.content.Some? &&
               Shows(now.content.value, Pairs(db.cells)[i].sqlCellId, planned);
    assert ChartAsAsked(cells[m].chart.value, planned);
  }

  lemma DrawnAsAsked(cell: CanvasPlanCell, op: CanvasOp, i: nat)
    requires OpAsAsked(cell, op) && DrawsAgain(op, i)
    ensures op.Update? && op.chart.Some? && cell.chart.Some? && ChartAsAsked(cell.chart.value, op.chart.value)
  {
    hide ChartAsAsked;
  }
}
