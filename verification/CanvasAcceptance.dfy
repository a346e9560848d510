/**
 Which plans are applied when no store call fails, and what is counted: backend/src/canvas/service.rs
 with the limits of backend/src/cell/service.rs and backend/src/dashboard/service.rs.
 */
module CanvasAcceptance {
  import opened Wrappers
  import opened Sequences
  import opened CanvasPlan
  import opened CanvasStore
  import opened CanvasIntegrity
  import opened CanvasResults
  import opened CanvasContents
  import CanvasDashboard
  import GridPacker

  // ---------- The cells of a pair are there until it is deleted ----------

  lemma QueryOwned(cells: seq<Cell>, nextId: Id, i: nat, j: nat)
    requires UniqueIds(cells, nextId) && i < |Pairs(cells)| && j < |Pairs(cells)|
    requires OfPair(Pairs(cells)[j], Pairs(cells)[i].sqlCellId)
    ensures j == i
  {
    hide Pairs, UniqueIds;
    var pairs := Pairs(cells);
    var a, b := PairPlaces(cells, i, j);
    SqlPlace(cells, cells[a], pairs[i]);
    if pairs[j].chartCellId == Some(pairs[i].sqlCellId) {
      var k := DrawnPlace(cells, cells[b], pairs[j]);
      SamePlace(cells, nextId, a, k);
    } else {
      SqlPlace(cells, cells[b], pairs[j]);
      SamePlace(cells, nextId, a, b);
    }
    hide ReadsPair;
  }

  /** The ids of a pair are those of cells of the notebook. */
  lemma PairHasCells(cells: seq<Cell>, i: nat, id: Id) returns (c: Cell)
    requires i < |Pairs(cells)| && OfPair(Pairs(cells)[i], id)
    ensures c in cells && c.id == id
  {
    hide Pairs;
    var a, b := PairPlaces(cells, i, i);
    SqlPlace(cells, cells[a], Pairs(cells)[i]);
    c := cells[a];
    if Pairs(cells)[i].sqlCellId != id {
      var k := DrawnPlace(cells, cells[a], Pairs(cells)[i]);
      c := cells[k];
    }
    hide ReadsPair;
  }

  lemma NotGone(db: Db, ops: seq<CanvasOp>, i: nat, id: Id)
    requires UniqueIds(db.cells, db.nextId) && i < |Pairs(db.cells)| && OfPair(Pairs(db.cells)[i], id)
    requires Delete(i) !in ops
    ensures !Gone(Pairs(db.cells), ops, id)
  {
    hide Pairs, UniqueIds;
    var pairs := Pairs(db.cells);
    if Gone(pairs, ops, id) {
      var k :| 0 <= k < |ops| && Deletes(pairs, ops[k], id);
      assert ops[k] in ops;
      if pairs[i].sqlCellId == id {
        QueryOwned(db.cells, db.nextId, i, ops[k].index);
      } else {
        PairOwns(db.cells, db.nextId, i, ops[k].index, id);
      }
    }
  }

  lemma PairIsThere(db: Db, ops: seq<CanvasOp>, p: Progress, i: nat, id: Id)
    requires UniqueIds(db.cells, db.nextId) && i < |Pairs(db.cells)| && OfPair(Pairs(db.cells)[i], id)
    requires Follows(db, Pairs(db.cells), ops, p) && i !in p.deleted
    ensures HasCell(p.db.cells, id)
  {
    var pairs := Pairs(db.cells);
    FollowsParts(db, pairs, ops, p);
    FollowsCells(db, pairs, ops, p);
    hide *;
    NotGone(db, ops, i, id);
    var c := PairHasCells(db.cells, i, id);
    LeftHas(pairs, ops, db.cells);
    IsThere(p.db.cells, AllTouched(pairs, ops, c));
  }

  // ---------- One operation ----------

  /** How many cells an operation adds after `ops`. */
  function Adds(pairs: seq<CellPair>, ops: seq<CanvasOp>, op: CanvasOp): nat
  {
    match op
    case Create(_, _, chart) => if chart.Some? then 2 else 1
    case Update(index, _, _, chart) =>
      if index < |pairs| && chart.Some? && pairs[index].chartCellId.None? && Delete(index) !in ops then 1 else 0
    case Delete(_) => 0
  }

  /** The cells at this point, with what the operation adds, are not more than 60. */
  predicate Fits(count: nat, added: nat)
  {
    added > 0 ==> count + added <= 60
  }

  lemma CreatesUnlessFull(p: Progress, title: Option<string>, sql: string, chart: Option<PlannedChart>)
    ensures AddPair({}, p, title, sql, chart).Ok? <==> Fits(|p.db.cells|, if chart.Some? then 2 else 1)
  {
    hide ChartContentOf, ToGridUnits;
  }

  lemma EditedHas(cells: seq<Cell>, id: Id, name: Option<string>, content: Option<Content>, other: Id)
    requires HasCell(cells, other)
    ensures HasCell(Edited(cells, id, name, content), other)
  {
    var k :| 0 <= k < |cells| && cells[k].id == other;
    assert Edited(cells, id, name, content)[k].id == other;
  }

  lemma UpdatesUnlessFull(p: Progress, pair: CellPair, title: Option<string>, sql: Option<string>,
                          chart: Option<PlannedChart>)
    requires forall id :: OfPair(pair, id) ==> HasCell(p.db.cells, id)
    ensures UpdatePair({}, p, pair, title, sql, chart).Ok? <==>
            Fits(|p.db.cells|, if chart.Some? && pair.chartCellId.None? then 1 else 0)
  {
    hide ChartContentOf, ToGridUnits, Edited, HasCell;
    assert OfPair(pair, pair.sqlCellId);
    if pair.chartCellId.Some? {
      assert OfPair(pair, pair.chartCellId.value);
      EditedHas(p.db.cells, pair.sqlCellId, title, if sql.Some? then Some(Plain(sql.value)) else None,
                pair.chartCellId.value);
    }
  }

  lemma OneUnlessFull(db: Db, ops: seq<CanvasOp>, p: Progress, op: CanvasOp)
    requires UniqueIds(db.cells, db.nextId) && Follows(db, Pairs(db.cells), ops, p)
    ensures ApplyOne({}, Pairs(db.cells), p, op).Ok? <==> Fits(|p.db.cells|, Adds(Pairs(db.cells), ops, op))
  {
    var pairs := Pairs(db.cells);
    FollowsParts(db, pairs, ops, p);
    hide Pairs, UniqueIds, Follows, Grows, AddPair, UpdatePair, HasCell, OfPair, RemovedBy, Left, Made;
    match op
    case Create(title, sql, chart) => CreatesUnlessFull(p, title, sql, chart);
    case Update(index, title, sql, chart) =>
      if index !in p.deleted && index < |pairs| {
        forall id | OfPair(pairs[index], id)
          ensures HasCell(p.db.cells, id)
        {
          PairIsThere(db, ops, p, index, id);
        }
        UpdatesUnlessFull(p, pairs[index], title, sql, chart);
      }
    case Delete(index) =>
  }

  // ---------- The whole run ----------

  /** How many cells the notebook has after the operations. */
  function CountAfter(db: Db, ops: seq<CanvasOp>): nat
  {
    |Left(Pairs(db.cells), ops, db.cells)| + |NewCells(db, ops, Pairs(db.cells))|
  }

  /** Each operation that adds cells finds room for them. */
  predicate HasRoom(db: Db, ops: seq<CanvasOp>)
  {
    forall k :: 0 <= k < |ops| ==> Fits(CountAfter(db, ops[..k]), Adds(Pairs(db.cells), ops[..k], ops[k]))
  }

  lemma CountIs(db: Db, ops: seq<CanvasOp>, p: Progress)
    requires Follows(db, Pairs(db.cells), ops, p)
    ensures |p.db.cells| == CountAfter(db, ops)
  {
    FollowsCells(db, Pairs(db.cells), ops, p);
    hide Follows, Pairs, Left, NewCells;
  }

  lemma HasRoomNext(db: Db, ops: seq<CanvasOp>)
    requires ops != []
    ensures var n := |ops| - 1;
            HasRoom(db, ops) <==>
            HasRoom(db, ops[..n]) && Fits(CountAfter(db, ops[..n]), Adds(Pairs(db.cells), ops[..n], ops[n]))
  {
    hide CountAfter, Adds, Fits;
    var n := |ops| - 1;
    forall k | 0 <= k < n
      ensures ops[..n][..k] == ops[..k] && ops[..n][k] == ops[k]
    {
    }
  }

  lemma {:induction false} RunUnlessFull(db: Db, ops: seq<CanvasOp>)
    requires UniqueIds(db.cells, db.nextId)
    ensures ApplyAll({}, Pairs(db.cells), CanvasStore.Start(db), ops).Ok? <==> HasRoom(db, ops)
  {
    hide Pairs, HasRoom, ApplyOne, Follows, Adds, CountAfter, UniqueIds;
    if ops == [] {
      NoOpsHaveRoom(db);
    } else {
      var n := |ops| - 1;
      RunUnlessFull(db, ops[..n]);
      HasRoomNext(db, ops);
      var before := ApplyAll({}, Pairs(db.cells), CanvasStore.Start(db), ops[..n]);
      if before.Ok? {
        AllPairsAreOld(db.cells, db.nextId);
        FollowsRun({}, db, Pairs(db.cells), ops[..n]);
        CountIs(db, ops[..n], before.value);
        OneUnlessFull(db, ops[..n], before.value, ops[n]);
      }
    }
  }

  lemma NoOpsHaveRoom(db: Db)
    ensures HasRoom(db, [])
  {
  }

  /** The charts that stay on the dashboard and the new ones are not more than 30. */
  predicate DashboardHasRoom(db: Db, ops: seq<CanvasOp>)
  {
    var pairs := Pairs(db.cells);
    var removed, queued := RemovedBy(pairs, ops), RequestsOf(NewCells(db, ops, pairs));
    (queued == [] && removed == []) ||
    (db.dashboard.Some? && |GridPacker.Retained(db.dashboard.value, removed)| + |queued| <= 30)
  }

  lemma AppendsUnlessFull(db: Db, removed: seq<Id>, queued: seq<GridPacker.ChartRequest>)
    ensures AppendToDashboard({}, db, removed, queued).Ok? <==>
            db.dashboard.Some? && |GridPacker.Retained(db.dashboard.value, removed)| + |queued| <= 30
  {
    hide GridPacker.Retained, GridPacker.Placed, GridPacker.MaxBottom;
  }

  lemma OutcomeUnlessFull(db: Db, ops: seq<CanvasOp>, p: Progress)
    requires ApplyAll({}, Pairs(db.cells), CanvasStore.Start(db), ops) == Ok(p) && p.db.dashboard == db.dashboard
    ensures OpsOutcome({}, db, ops).Ok? <==>
            (p.queued == [] && p.removedIds == []) ||
            (db.dashboard.Some? && |GridPacker.Retained(db.dashboard.value, p.removedIds)| + |p.queued| <= 30)
  {
    hide ApplyAll, Pairs, GridPacker.Retained, AppendToDashboard;
    AppendsUnlessFull(p.db, p.removedIds, p.queued);
  }

  lemma OutcomeRuns(db: Db, ops: seq<CanvasOp>)
    requires OpsOutcome({}, db, ops).Ok?
    ensures ApplyAll({}, Pairs(db.cells), CanvasStore.Start(db), ops).Ok?
  {
    hide ApplyAll, Pairs, AppendToDashboard;
  }

  /**
   When no store call fails, operations are applied exactly when the notebook has room for each cell
   they add at the moment they add it, and the dashboard for the charts at the end.
   */
  lemma AppliedIffRoom(db: Db, ops: seq<CanvasOp>)
    requires UniqueIds(db.cells, db.nextId)
    ensures OpsOutcome({}, db, ops).Ok? <==> HasRoom(db, ops) && DashboardHasRoom(db, ops)
  {
    hide *;
    RunUnlessFull(db, ops);
    if ApplyAll({}, Pairs(db.cells), CanvasStore.Start(db), ops).Ok? {
      var p := ApplyAll({}, Pairs(db.cells), CanvasStore.Start(db), ops).value;
      CanvasDashboard.KeepsDashboard({}, Pairs(db.cells), CanvasStore.Start(db), ops);
      StartKeeps(db);
      AllPairsAreOld(db.cells, db.nextId);
      FollowsRun({}, db, Pairs(db.cells), ops);
      FollowsCells(db, Pairs(db.cells), ops, p);
      OutcomeUnlessFull(db, ops, p);
      DashboardRoomIs(db, ops);
    } else if OpsOutcome({}, db, ops).Ok? {
      OutcomeRuns(db, ops);
    }
  }

  lemma StartKeeps(db: Db)
    ensures CanvasStore.Start(db).db.dashboard == db.dashboard
  {
  }

  lemma DashboardRoomIs(db: Db, ops: seq<CanvasOp>)
    ensures var pairs := Pairs(db.cells);
            var removed, queued := RemovedBy(pairs, ops), RequestsOf(NewCells(db, ops, pairs));
            DashboardHasRoom(db, ops) <==>
            (queued == [] && removed == []) ||
            (db.dashboard.Some? && |GridPacker.Retained(db.dashboard.value, removed)| + |queued| <= 30)
  {
    hide Pairs, RemovedBy, NewCells, RequestsOf, GridPacker.Retained;
  }

  // ---------- What is counted ----------

  /** Operation k acts on a pair that is there and not deleted before. */
  predicate Acts(pairs: seq<CellPair>, ops: seq<CanvasOp>, k: nat)
    requires k < |ops|
  {
    !ops[k].Create? && ops[k].index < |pairs| && Delete(ops[k].index) !in ops[..k]
  }

  function Creating(ops: seq<CanvasOp>): set<nat>
  {
    set k: nat | k < |ops| && ops[k].Create?
  }

  function Updating(pairs: seq<CellPair>, ops: seq<CanvasOp>): set<nat>
  {
    set k: nat | k < |ops| && ops[k].Update? && Acts(pairs, ops, k)
  }

  function Deleting(pairs: seq<CellPair>, ops: seq<CanvasOp>): set<nat>
  {
    set k: nat | k < |ops| && ops[k].Delete? && Acts(pairs, ops, k)
  }

  lemma ActsEarlier(pairs: seq<CellPair>, ops: seq<CanvasOp>, op: CanvasOp, k: nat)
    requires k < |ops|
    ensures Acts(pairs, ops + [op], k) <==> Acts(pairs, ops, k)
  {
    assert (ops + [op])[..k] == ops[..k];
  }

  lemma ActsLast(pairs: seq<CellPair>, ops: seq<CanvasOp>, op: CanvasOp)
    ensures Acts(pairs, ops + [op], |ops|) <==> !op.Create? && op.index < |pairs| && Delete(op.index) !in ops
  {
    assert (ops + [op])[..|ops|] == ops;
  }

  lemma CreatingNext(ops: seq<CanvasOp>, op: CanvasOp)
    ensures Creating(ops + [op]) == Creating(ops) + if op.Create? then {|ops|} else {}
  {
    var all := ops + [op];
    assert all[|ops|] == op;
    forall k: nat
      ensures k in Creating(all) <==> k in Creating(ops) || (op.Create? && k == |ops|)
    {
      assert k < |ops| ==> all[k] == ops[k];
    }
  }

  lemma UpdatingNext(pairs: seq<CellPair>, ops: seq<CanvasOp>, op: CanvasOp)
    ensures var acts := op.Update? && op.index < |pairs| && Delete(op.index) !in ops;
            Updating(pairs, ops + [op]) == Updating(pairs, ops) + if acts then {|ops|} else {}
  {
    hide Acts;
    var all := ops + [op];
    ActsLast(pairs, ops, op);
    assert all[|ops|] == op;
    forall k: nat
      ensures k in Updating(pairs, all) <==>
              k in Updating(pairs, ops) || (k == |ops| && op.Update? && Acts(pairs, all, k))
    {
      if k < |ops| {
        ActsEarlier(pairs, ops, op, k);
      }
    }
  }

  lemma DeletingNext(pairs: seq<CellPair>, ops: seq<CanvasOp>, op: CanvasOp)
    ensures var acts := op.Delete? && op.index < |pairs| && Delete(op.index) !in ops;
            Deleting(pairs, ops + [op]) == Deleting(pairs, ops) + if acts then {|ops|} else {}
  {
    hide Acts;
    var all := ops + [op];
    ActsLast(pairs, ops, op);
    assert all[|ops|] == op;
    forall k: nat
      ensures k in Deleting(pairs, all) <==>
              k in Deleting(pairs, ops) || (k == |ops| && op.Delete? && Acts(pairs, all, k))
    {
      if k < |ops| {
        ActsEarlier(pairs, ops, op, k);
      }
    }
  }

  lemma CountedNext(pairs: seq<CellPair>, ops: seq<CanvasOp>, op: CanvasOp)
    ensures var acts := !op.Create? && op.index < |pairs| && Delete(op.index) !in ops;
            |Creating(ops + [op])| == |Creating(ops)| + (if op.Create? then 1 else 0) &&
            |Updating(pairs, ops + [op])| == |Updating(pairs, ops)| + (if op.Update? && acts then 1 else 0) &&
            |Deleting(pairs, ops + [op])| == |Deleting(pairs, ops)| + (if op.Delete? && acts then 1 else 0)
  {
    CreatingNext(ops, op);
    UpdatingNext(pairs, ops, op);
    DeletingNext(pairs, ops, op);
    NotYet(pairs, ops);
    hide Creating, Updating, Deleting;
  }

  lemma NotYet(pairs: seq<CellPair>, ops: seq<CanvasOp>)
    ensures |ops| !in Creating(ops) && |ops| !in Updating(pairs, ops) && |ops| !in Deleting(pairs, ops)
  {
  }

  lemma OneCounts(faults: set<nat>, pairs: seq<CellPair>, p: Progress, op: CanvasOp)
    requires ApplyOne(faults, pairs, p, op).Ok?
    ensures var c, d := p.changes, ApplyOne(faults, pairs, p, op).value.changes;
            var acts := !op.Create? && op.index < |pairs| && op.index !in p.deleted;
            d.added == c.added + (if op.Create? then 1 else 0) &&
            d.updated == c.updated + (if op.Update? && acts then 1 else 0) &&
            d.removed == c.removed + if op.Delete? && acts then 1 else 0
  {
    hide SaveCell, UpdateContent, Remove, ChartContentOf;
  }

  lemma {:induction false} RunCounts(faults: set<nat>, db: Db, pairs: seq<CellPair>, ops: seq<CanvasOp>)
    requires OldPairs(pairs, db.nextId) && ApplyAll(faults, pairs, CanvasStore.Start(db), ops).Ok?
    ensures ApplyAll(faults, pairs, CanvasStore.Start(db), ops).value.changes ==
            Changes(|Creating(ops)|, |Updating(pairs, ops)|, |Deleting(pairs, ops)|)
  {
    hide OldPairs, Follows, ApplyOne, Creating, Updating, Deleting, MaxOrder;
    if ops == [] {
      NothingCounted(pairs);
    } else {
      var n := |ops| - 1;
      var p := ApplyAll(faults, pairs, CanvasStore.Start(db), ops[..n]).value;
      RunCounts(faults, db, pairs, ops[..n]);
      FollowsRun(faults, db, pairs, ops[..n]);
      FollowsParts(db, pairs, ops[..n], p);
      Snoc(ops);
      CountedNext(pairs, ops[..n], ops[n]);
      OneCounts(faults, pairs, p, ops[n]);
    }
  }

  lemma NothingCounted(pairs: seq<CellPair>)
    ensures Creating([]) == {} && Updating(pairs, []) == {} && Deleting(pairs, []) == {}
  {
  }

  /** The change summary counts the creations, and the updates and deletions of pairs that are there. */
  lemma ChangesAreCounted(faults: set<nat>, db: Db, ops: seq<CanvasOp>)
    requires UniqueIds(db.cells, db.nextId) && OpsOutcome(faults, db, ops).Ok?
    ensures var pairs := Pairs(db.cells);
            OpsOutcome(faults, db, ops).value.1 ==
            Changes(|Creating(ops)|, |Updating(pairs, ops)|, |Deleting(pairs, ops)|)
  {
    hide *;
    AllPairsAreOld(db.cells, db.nextId);
    OpsRun(faults, db, ops);
    RunCounts(faults, db, Pairs(db.cells), ops);
  }
}
