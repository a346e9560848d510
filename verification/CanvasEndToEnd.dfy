/**
 A plan from its resolution (backend/src/ai/dto.rs) to the committed canvas
 (backend/src/canvas/service.rs): the queries that end up in the notebook, and what one applied
 plan does to all canvases.
 */
module CanvasEndToEnd {
  import opened Wrappers
  import opened Sequences
  import opened CanvasPlan
  import opened CanvasDedup
  import opened CanvasStore
  import opened CanvasIntegrity
  import opened CanvasResults
  import opened CanvasDashboard
  import Text

  // ---------- The SQL cells as rows ----------

  datatype Row = Row(id: Id, query: string)

  function Rows(cells: seq<Cell>): seq<Row>
  {
    if cells == [] then []
    else if cells[|cells| - 1].IsSql() then
      Rows(cells[..|cells| - 1]) + [Row(cells[|cells| - 1].id, cells[|cells| - 1].Query())]
    else Rows(cells[..|cells| - 1])
  }

  function QueriesIn(rows: seq<Row>): (queries: seq<string>)
    ensures |queries| == |rows|
  {
    seq(|rows|, k requires 0 <= k < |rows| => rows[k].query)
  }

  /** The queries of a notebook, in display order. */
  function Queries(cells: seq<Cell>): seq<string>
  {
    QueriesIn(Rows(cells))
  }

  function Rewritten(rows: seq<Row>, id: Id, query: string): (r: seq<Row>)
    ensures |r| == |rows|
  {
    seq(|rows|, k requires 0 <= k < |rows| => if rows[k].id == id then rows[k].(query := query) else rows[k])
  }

  function Dropping(rows: seq<Row>, id: Id): seq<Row>
  {
    if rows == [] then []
    else if rows[|rows| - 1].id == id then Dropping(rows[..|rows| - 1], id)
    else Dropping(rows[..|rows| - 1], id) + [rows[|rows| - 1]]
  }

  lemma RowsSave(cells: seq<Cell>, cell: Cell)
    ensures Rows(cells + [cell]) == if cell.IsSql() then Rows(cells) + [Row(cell.id, cell.Query())] else Rows(cells)
  {
    assert (cells + [cell])[..|cells|] == cells;
  }

  lemma {:induction false} RowsEdit(cells: seq<Cell>, id: Id, name: Option<string>, query: Option<string>)
    ensures Rows(Edited(cells, id, name, if query.Some? then Some(Plain(query.value)) else None)) ==
            if query.Some? then Rewritten(Rows(cells), id, query.value) else Rows(cells)
  {
    if cells != [] {
      var n := |cells| - 1;
      var content := if query.Some? then Some(Plain(query.value)) else None;
      assert Edited(cells, id, name, content)[..n] == Edited(cells[..n], id, name, content);
      RowsEdit(cells[..n], id, name, query);
    }
  }

  lemma {:induction false} RowsEditOther(cells: seq<Cell>, id: Id, name: Option<string>, content: Option<Content>)
    requires forall c :: c in cells && c.id == id ==> !c.IsSql()
    ensures Rows(Edited(cells, id, name, content)) == Rows(cells)
  {
    if cells != [] {
      var n := |cells| - 1;
      assert Edited(cells, id, name, content)[..n] == Edited(cells[..n], id, name, content);
      RowsEditOther(cells[..n], id, name, content);
      assert cells[n] in cells;
    }
  }

  lemma {:induction false} RowsWithout(cells: seq<Cell>, id: Id)
    ensures Rows(Without(cells, id)) == Dropping(Rows(cells), id)
  {
    if cells != [] {
      var n := |cells| - 1;
      RowsWithout(cells[..n], id);
      var kept := Without(cells[..n], id);
      if cells[n].id == id {
        Unit(kept);
      } else {
        RowsSave(kept, cells[n]);
      }
      if cells[n].IsSql() {
        assert Rows(cells)[..|Rows(cells)| - 1] == Rows(cells[..n]);
      }
    }
  }

  lemma {:induction false} RowsHaveSql(cells: seq<Cell>)
    ensures forall r :: r in Rows(cells) ==> HasSql(cells, r.id)
  {
    if cells != [] {
      var n := |cells| - 1;
      RowsHaveSql(cells[..n]);
      assert cells[n] in cells;
      forall r | r in Rows(cells)
        ensures HasSql(cells, r.id)
      {
        if r in Rows(cells[..n]) {
          var c :| c in cells[..n] && c.IsSql() && c.id == r.id;
          assert c in cells;
        }
      }
    }
  }

  lemma {:induction false} DropNone(rows: seq<Row>, id: Id)
    requires forall r :: r in rows ==> r.id != id
    ensures Dropping(rows, id) == rows
  {
    if rows != [] {
      DropNone(rows[..|rows| - 1], id);
      Snoc(rows);
    }
  }

  lemma {:induction false} DropConcat(a: seq<Row>, b: seq<Row>, id: Id)
    ensures Dropping(a + b, id) == Dropping(a, id) + Dropping(b, id)
  {
    if b == [] {
      Unit(a);
      Unit(Dropping(a, id));
    } else {
      assert (a + b)[..|a + b| - 1] == a + b[..|b| - 1];
      DropConcat(a, b[..|b| - 1], id);
    }
  }

  // ---------- Rows against slots ----------

  /** The rows of the pairs whose query is left. */
  function KeptRows(pairs: seq<CellPair>, slots: seq<Option<string>>, n: nat): seq<Row>
    requires n <= |pairs| && n <= |slots|
  {
    if n == 0 then []
    else if slots[n - 1].Some? then KeptRows(pairs, slots, n - 1) + [Row(pairs[n - 1].sqlCellId, slots[n - 1].value)]
    else KeptRows(pairs, slots, n - 1)
  }

  lemma {:induction false} KeptRowsRewrite(pairs: seq<CellPair>, slots: seq<Option<string>>, n: nat, i: nat,
      query: string)
    requires |slots| == |pairs| && n <= |pairs| && i < |pairs| && slots[i].Some? && DistinctPairs(pairs)
    ensures Rewritten(KeptRows(pairs, slots, n), pairs[i].sqlCellId, query) ==
            KeptRows(pairs, slots[i := Some(query)], n)
  {
    if n > 0 {
      KeptRowsRewrite(pairs, slots, n - 1, i, query);
      assert n - 1 != i ==> pairs[n - 1].sqlCellId != pairs[i].sqlCellId;
    }
  }

  lemma {:induction false} KeptRowsDrop(pairs: seq<CellPair>, slots: seq<Option<string>>, n: nat, i: nat)
    requires |slots| == |pairs| && n <= |pairs| && i < |pairs| && DistinctPairs(pairs)
    ensures Dropping(KeptRows(pairs, slots, n), pairs[i].sqlCellId) == KeptRows(pairs, slots[i := None], n)
  {
    if n > 0 {
      KeptRowsDrop(pairs, slots, n - 1, i);
      assert n - 1 != i ==> pairs[n - 1].sqlCellId != pairs[i].sqlCellId;
      if slots[n - 1].Some? {
        assert KeptRows(pairs, slots, n)[..|KeptRows(pairs, slots, n)| - 1] == KeptRows(pairs, slots, n - 1);
      }
    }
  }

  /** The notebook's SQL cells: the target's cells not deleted, then the plan's own. */
  ghost predicate Matches(base: Id, pairs: seq<CellPair>, cells: seq<Cell>, live: Live, created: seq<Row>)
  {
    |live.slots| == |pairs| && Rows(cells) == KeptRows(pairs, live.slots, |pairs|) + created &&
    QueriesIn(created) == live.created && forall r :: r in created ==> r.id >= base
  }

  ghost predicate SlotsLeft(pairs: seq<CellPair>, live: Live, deleted: set<nat>)
  {
    |live.slots| == |pairs| && forall i :: 0 <= i < |pairs| ==> (live.slots[i].Some? <==> i !in deleted)
  }

  lemma MatchCreate(base: Id, pairs: seq<CellPair>, cells: seq<Cell>, live: Live, created: seq<Row>, cell: Cell,
      sql: string)
    requires Matches(base, pairs, cells, live, created) && cell.IsSql() && cell.Query() == sql && cell.id >= base
    ensures Matches(base, pairs, cells + [cell], live.(created := live.created + [sql]), created + [Row(cell.id, sql)])
  {
    RowsSave(cells, cell);
    Assoc(KeptRows(pairs, live.slots, |pairs|), created, [Row(cell.id, sql)]);
    hide KeptRows, Rows;
    assert QueriesIn(created + [Row(cell.id, sql)]) == QueriesIn(created) + [sql];
  }

  lemma MatchRewrite(
    base: Id, pairs: seq<CellPair>, cells: seq<Cell>, live: Live, created: seq<Row>, i: nat, name: Option<string>,
    query: Option<string>)
    requires Matches(base, pairs, cells, live, created) && DistinctPairs(pairs)
    requires i < |pairs| && live.slots[i].Some? && pairs[i].sqlCellId < base
    ensures Matches(base, pairs,
                    Edited(cells, pairs[i].sqlCellId, name, if query.Some? then Some(Plain(query.value)) else None),
                    if query.Some? then live.(slots := live.slots[i := query]) else live, created)
  {
    RowsEdit(cells, pairs[i].sqlCellId, name, query);
    if query.Some? {
      KeptRowsRewrite(pairs, live.slots, |pairs|, i, query.value);
      RewriteConcat(KeptRows(pairs, live.slots, |pairs|), created, pairs[i].sqlCellId, query.value);
      RewriteNone(created, pairs[i].sqlCellId, query.value);
    }
    hide KeptRows, Rows, Rewritten, Edited;
  }

  lemma RewriteConcat(a: seq<Row>, b: seq<Row>, id: Id, query: string)
    ensures Rewritten(a + b, id, query) == Rewritten(a, id, query) + Rewritten(b, id, query)
  {
  }

  lemma RewriteNone(rows: seq<Row>, id: Id, query: string)
    requires forall r :: r in rows ==> r.id != id
    ensures Rewritten(rows, id, query) == rows
  {
    assert forall k :: 0 <= k < |rows| ==> rows[k] in rows;
  }

  lemma MatchDelete(base: Id, pairs: seq<CellPair>, cells: seq<Cell>, live: Live, created: seq<Row>, i: nat)
    requires Matches(base, pairs, cells, live, created) && DistinctPairs(pairs)
    requires i < |pairs| && pairs[i].sqlCellId < base
    ensures Matches(base, pairs, Without(cells, pairs[i].sqlCellId), live.(slots := live.slots[i := None]), created)
  {
    RowsWithout(cells, pairs[i].sqlCellId);
    DropConcat(KeptRows(pairs, live.slots, |pairs|), created, pairs[i].sqlCellId);
    KeptRowsDrop(pairs, live.slots, |pairs|, i);
    DropNone(created, pairs[i].sqlCellId);
    hide KeptRows, Rows, Dropping, Without;
  }

  lemma SameRows(base: Id, pairs: seq<CellPair>, cells: seq<Cell>, after: seq<Cell>, live: Live, created: seq<Row>)
    requires Matches(base, pairs, cells, live, created) && Rows(after) == Rows(cells)
    ensures Matches(base, pairs, after, live, created)
  {
    hide Rows, KeptRows;
  }

  lemma NotSqlRows(cells: seq<Cell>, id: Id)
    requires !HasSql(cells, id)
    ensures Rows(Without(cells, id)) == Rows(cells)
    ensures forall name, content :: Rows(Edited(cells, id, name, content)) == Rows(cells)
  {
    RowsHaveSql(cells);
    RowsWithout(cells, id);
    DropNone(Rows(cells), id);
    forall name, content
      ensures Rows(Edited(cells, id, name, content)) == Rows(cells)
    {
      RowsEditOther(cells, id, name, content);
    }
  }

  // ---------- One operation, and all of them ----------

  lemma MatchAddChart(
    faults: set<nat>, base: Id, pairs: seq<CellPair>, p: Progress, live: Live, created: seq<Row>,
    source: Id, title: Option<string>, chart: PlannedChart)
    requires Matches(base, pairs, p.db.cells, live, created) && AddChart(faults, p, source, title, chart).Ok?
    ensures Matches(base, pairs, AddChart(faults, p, source, title, chart).value.db.cells, live, created)
  {
    hide Matches, Rows;
    var cell := Cell(p.db.nextId, ChartCell, title, Some(Chart(ChartContentOf(source, chart))), p.order);
    RowsSave(p.db.cells, cell);
    SameRows(base, pairs, p.db.cells, p.db.cells + [cell], live, created);
  }

  lemma MatchAddPair(
    faults: set<nat>, base: Id, pairs: seq<CellPair>, p: Progress, live: Live, created: seq<Row>,
    title: Option<string>, sql: string, chart: Option<PlannedChart>)
    requires Matches(base, pairs, p.db.cells, live, created) && base <= p.db.nextId &&
             AddPair(faults, p, title, sql, chart).Ok?
    ensures Matches(base, pairs, AddPair(faults, p, title, sql, chart).value.db.cells,
                    live.(created := live.created + [sql]), created + [Row(p.db.nextId, sql)])
  {
    hide Matches, AddChart;
    var cell := Cell(p.db.nextId, SqlCell, title, Some(Plain(sql)), p.order);
    MatchCreate(base, pairs, p.db.cells, live, created, cell, sql);
    if chart.Some? {
      var db := SaveCell(faults, p.db, SqlCell, title, Plain(sql), p.order).value;
      MatchAddChart(faults, base, pairs, p.(db := db, order := p.order + 1), live.(created := live.created + [sql]),
                    created + [Row(p.db.nextId, sql)], p.db.nextId, title, chart.value);
    }
  }

  lemma LiveIds(p: Progress, o: Outline, pair: CellPair, cells: seq<Cell>)
    requires HasShape(cells, p.db.nextId, o.shape) && PairLives(o, pair)
    ensures pair.chartCellId.Some? ==> !HasSql(cells, pair.chartCellId.value)
  {
    hide HasChart;
  }

  lemma UpdatedShape(faults: set<nat>, p: Progress, o: Outline, pair: CellPair, title: Option<string>,
      sql: Option<string>)
    requires HasShape(p.db.cells, p.db.nextId, o.shape) && PairLives(o, pair) &&
             UpdateSql(faults, p, pair, title, sql).Ok?
    ensures HasShape(UpdateSql(faults, p, pair, title, sql).value.db.cells, p.db.nextId, o.shape)
  {
    ShapeEdit(p.db.cells, p.db.nextId, o.shape, pair.sqlCellId, title,
      if sql.Some? then Some(Plain(sql.value)) else None);
    hide HasShape, Edited, HasCell;
  }

  lemma MatchUpdateSql(
    faults: set<nat>, base: Id, pairs: seq<CellPair>, p: Progress, live: Live, created: seq<Row>, i: nat,
    title: Option<string>, sql: Option<string>)
    requires Matches(base, pairs, p.db.cells, live, created) && DistinctPairs(pairs)
    requires i < |pairs| && live.slots[i].Some? && pairs[i].sqlCellId < base
    requires UpdateSql(faults, p, pairs[i], title, sql).Ok?
    ensures Matches(base, pairs, UpdateSql(faults, p, pairs[i], title, sql).value.db.cells,
                    if sql.Some? then live.(slots := live.slots[i := sql]) else live, created)
  {
    MatchRewrite(base, pairs, p.db.cells, live, created, i, title, sql);
    hide Matches, DistinctPairs, Edited, HasCell;
  }

  lemma MatchUpdateChart(
    faults: set<nat>, base: Id, pairs: seq<CellPair>, p: Progress, live: Live, created: seq<Row>, pair: CellPair,
    title: Option<string>, chart: PlannedChart)
    requires Matches(base, pairs, p.db.cells, live, created) && UpdateChart(faults, p, pair, title, chart).Ok?
    requires pair.chartCellId.Some? ==> !HasSql(p.db.cells, pair.chartCellId.value)
    ensures Matches(base, pairs, UpdateChart(faults, p, pair, title, chart).value.db.cells, live, created)
  {
    hide Matches, AddChart, HasSql, HasCell, Edited, Rows;
    if pair.chartCellId.None? {
      MatchAddChart(faults, base, pairs, p, live, created, pair.sqlCellId,
        if title.Some? then title else Some(pair.title), chart);
    } else {
      var content := Some(Chart(ChartContentOf(pair.sqlCellId, chart)));
      NotSqlRows(p.db.cells, pair.chartCellId.value);
      SameRows(base, pairs, p.db.cells, Edited(p.db.cells, pair.chartCellId.value, title, content), live, created);
    }
  }

  lemma MatchUpdate(
    faults: set<nat>, base: Id, pairs: seq<CellPair>, p: Progress, o: Outline, live: Live, created: seq<Row>, i: nat,
    title: Option<string>, sql: Option<string>, chart: Option<PlannedChart>)
    requires HasShape(p.db.cells, p.db.nextId, o.shape) && Matches(base, pairs, p.db.cells, live, created) &&
             DistinctPairs(pairs)
    requires i < |pairs| && live.slots[i].Some? && pairs[i].sqlCellId < base && PairLives(o, pairs[i])
    requires UpdatePair(faults, p, pairs[i], title, sql, chart).Ok?
    ensures Matches(base, pairs, UpdatePair(faults, p, pairs[i], title, sql, chart).value.db.cells,
                    if sql.Some? then live.(slots := live.slots[i := sql]) else live, created)
  {
    var rewritten := if sql.Some? then live.(slots := live.slots[i := sql]) else live;
    hide Matches, HasShape, PairLives, UpdateSql, UpdateChart, DistinctPairs;
    var mid := UpdateSql(faults, p, pairs[i], title, sql).value;
    MatchUpdateSql(faults, base, pairs, p, live, created, i, title, sql);
    if chart.Some? {
      UpdatedShape(faults, p, o, pairs[i], title, sql);
      SameNextId(faults, p, pairs[i], title, sql);
      LiveIds(p, o, pairs[i], mid.db.cells);
      MatchUpdateChart(faults, base, pairs, mid, rewritten, created, pairs[i], title, chart.value);
    }
  }

  lemma SameNextId(faults: set<nat>, p: Progress, pair: CellPair, title: Option<string>, sql: Option<string>)
    requires UpdateSql(faults, p, pair, title, sql).Ok?
    ensures UpdateSql(faults, p, pair, title, sql).value.db.nextId == p.db.nextId
  {
  }

  lemma MatchRemovePair(
    faults: set<nat>, base: Id, pairs: seq<CellPair>, p: Progress, o: Outline, live: Live, created: seq<Row>, i: nat)
    requires HasShape(p.db.cells, p.db.nextId, o.shape) && Matches(base, pairs, p.db.cells, live, created) &&
             DistinctPairs(pairs)
    requires i < |pairs| && pairs[i].sqlCellId < base && PairLives(o, pairs[i]) && RemovePair(faults, p, pairs[i]).Ok?
    ensures Matches(base, pairs, RemovePair(faults, p, pairs[i]).value.db.cells,
                    live.(slots := live.slots[i := None]), created)
  {
    LiveIds(p, o, pairs[i], p.db.cells);
    hide Matches, HasShape, PairLives, DistinctPairs, Without, Rows, HasSql;
    var mid := RemoveChart(faults, p, pairs[i]).value;
    if pairs[i].chartCellId.Some? {
      NotSqlRows(p.db.cells, pairs[i].chartCellId.value);
      SameRows(base, pairs, p.db.cells, mid.db.cells, live, created);
    }
    MatchDelete(base, pairs, mid.db.cells, live, created, i);
  }

  lemma MatchStep(
    faults: set<nat>, base: Id, pairs: seq<CellPair>, p: Progress, o: Outline, live: Live, created: seq<Row>,
    op: CanvasOp)
    returns (made: seq<Row>)
    requires Outlines(o, p) && Consistent(pairs, base, o) && ApplyOne(faults, pairs, p, op).Ok?
    requires Matches(base, pairs, p.db.cells, live, created) && SlotsLeft(pairs, live, p.deleted)
    ensures Matches(base, pairs, ApplyOne(faults, pairs, p, op).value.db.cells, ApplyQuery(live, op), made)
    ensures SlotsLeft(pairs, ApplyQuery(live, op), ApplyOne(faults, pairs, p, op).value.deleted)
  {
    assert base <= p.db.nextId && DistinctPairs(pairs) && HasShape(p.db.cells, p.db.nextId, o.shape) &&
           o.deleted == p.deleted;
    assert op.Create? || op.index >= |pairs| || PairConsistent(pairs[op.index], base, o, op.index);
    hide Matches, Outlines, Consistent, HasShape, AddPair, UpdatePair, RemovePair, PairLives, DistinctPairs;
    made := created;
    match op
    case Create(title, sql, chart) =>
      MatchAddPair(faults, base, pairs, p, live, created, title, sql, chart);
      made := created + [Row(p.db.nextId, sql)];
      SameDeletedAfter(faults, p, title, sql, chart);
    case Update(index, title, sql, chart) =>
      if index !in p.deleted && index < |pairs| {
        MatchUpdate(faults, base, pairs, p, o, live, created, index, title, sql, chart);
        SameDeletedUpdate(faults, p, pairs[index], title, sql, chart);
      }
    case Delete(index) =>
      if index !in p.deleted && index < |pairs| {
        MatchRemovePair(faults, base, pairs, p, o, live, created, index);
        SameDeletedRemove(faults, p, pairs[index]);
      } else if index < |pairs| {
        assert live.slots[index := None] == live.slots;
      }
  }

  lemma SameDeletedAfter(faults: set<nat>, p: Progress, title: Option<string>, sql: string, chart: Option<PlannedChart>)
    requires AddPair(faults, p, title, sql, chart).Ok?
    ensures AddPair(faults, p, title, sql, chart).value.deleted == p.deleted
  {
  }

  lemma SameDeletedUpdate(faults: set<nat>, p: Progress, pair: CellPair, title: Option<string>, sql: Option<string>,
      chart: Option<PlannedChart>)
    requires UpdatePair(faults, p, pair, title, sql, chart).Ok?
    ensures UpdatePair(faults, p, pair, title, sql, chart).value.deleted == p.deleted
  {
  }

  lemma SameDeletedRemove(faults: set<nat>, p: Progress, pair: CellPair)
    requires RemovePair(faults, p, pair).Ok?
    ensures RemovePair(faults, p, pair).value.deleted == p.deleted
  {
  }

  lemma {:induction false} MatchRun(
    faults: set<nat>, pairs: seq<CellPair>, base: Id, p: Progress, o: Outline, queries: seq<string>, ops: seq<CanvasOp>)
    returns (made: seq<Row>)
    requires Outlines(o, p) && Consistent(pairs, base, o) && ApplyAll(faults, pairs, p, ops).Ok?
    requires Matches(base, pairs, p.db.cells, Untouched(queries), []) && SlotsLeft(pairs, Untouched(queries), p.deleted)
    ensures Matches(base, pairs, ApplyAll(faults, pairs, p, ops).value.db.cells, ApplyQueries(ops, queries), made)
    ensures SlotsLeft(pairs, ApplyQueries(ops, queries), ApplyAll(faults, pairs, p, ops).value.deleted)
  {
    hide Matches, SlotsLeft, Outlines, Consistent, ApplyOne, ApplyQuery, OutlineRun;
    if ops == [] {
      made := [];
    } else {
      var n := |ops| - 1;
      made := MatchRun(faults, pairs, base, p, o, queries, ops[..n]);
      RunOutlines(faults, pairs, base, p, o, ops[..n]);
      ConsistentRun(pairs, base, o, ops[..n]);
      made := MatchStep(faults, base, pairs, ApplyAll(faults, pairs, p, ops[..n]).value, OutlineRun(pairs, o, ops[..n]),
                        ApplyQueries(ops[..n], queries), made, ops[n]);
    }
  }

  lemma {:induction false} RowsArePairs(cells: seq<Cell>, n: nat)
    requires n <= |cells|
    ensures |Rows(cells[..n])| == |PairsOf(cells, n)|
    ensures forall i :: 0 <= i < |PairsOf(cells, n)| ==>
              Rows(cells[..n])[i] == Row(PairsOf(cells, n)[i].sqlCellId, PairsOf(cells, n)[i].sql)
  {
    if n > 0 {
      assert cells[..n][..n - 1] == cells[..n - 1];
      RowsArePairs(cells, n - 1);
    }
  }

  lemma {:induction false} AllKeptRows(pairs: seq<CellPair>, rows: seq<Row>, n: nat)
    requires |rows| == |pairs| && n <= |pairs|
    requires forall i :: 0 <= i < |pairs| ==> rows[i].id == pairs[i].sqlCellId
    ensures KeptRows(pairs, Untouched(QueriesIn(rows)).slots, n) == rows[..n]
  {
    if n > 0 {
      AllKeptRows(pairs, rows, n - 1);
      assert rows[..n] == rows[..n - 1] + [rows[n - 1]];
    }
  }

  lemma MatchesAtStart(base: Id, cells: seq<Cell>)
    ensures |Queries(cells)| == |Pairs(cells)|
    ensures Matches(base, Pairs(cells), cells, Untouched(Queries(cells)), [])
    ensures SlotsLeft(Pairs(cells), Untouched(Queries(cells)), {})
  {
    var pairs, rows := Pairs(cells), Rows(cells);
    RowsArePairs(cells, |cells|);
    assert cells[..|cells|] == cells;
    AllKeptRows(pairs, rows, |pairs|);
    assert rows[..|rows|] == rows;
    Unit(rows);
    hide PairsOf, Rows, KeptRows;
  }

  lemma {:induction false} KeptRowsQueries(pairs: seq<CellPair>, slots: seq<Option<string>>, n: nat)
    requires |slots| == |pairs| && n <= |pairs|
    ensures QueriesIn(KeptRows(pairs, slots, n)) == Kept(slots[..n])
  {
    if n > 0 {
      KeptRowsQueries(pairs, slots, n - 1);
      assert slots[..n][..n - 1] == slots[..n - 1];
    }
  }

  lemma QueriesConcat(a: seq<Row>, b: seq<Row>)
    ensures QueriesIn(a + b) == QueriesIn(a) + QueriesIn(b)
  {
  }

  lemma MatchedQueries(base: Id, pairs: seq<CellPair>, cells: seq<Cell>, live: Live, created: seq<Row>)
    requires Matches(base, pairs, cells, live, created)
    ensures Queries(cells) == LiveQueries(live)
  {
    KeptRowsQueries(pairs, live.slots, |pairs|);
    assert live.slots[..|live.slots|] == live.slots;
    QueriesConcat(KeptRows(pairs, live.slots, |pairs|), created);
    hide Rows, KeptRows, QueriesIn, Kept;
  }

  /** The queries left in the notebook, in display order, are those the operations say. */
  lemma QueriesFollowOperations(faults: set<nat>, db: Db, ops: seq<CanvasOp>)
    requires UniqueIds(db.cells, db.nextId) && OpsOutcome(faults, db, ops).Ok?
    ensures Queries(OpsOutcome(faults, db, ops).value.0.cells) == LiveQueries(ApplyQueries(ops, Queries(db.cells)))
  {
    var shape := ShapeOf(db.cells, db.nextId);
    var pairs, start, p := Pairs(db.cells), Opening(shape, db.nextId), CanvasStore.Start(db);
    assert p.db.cells == db.cells && p.deleted == {};
    hide *;
    OutcomeOutlines(faults, db, ops, shape);
    OpsRun(faults, db, ops);
    OpeningOutlines(db, shape);
    MatchesAtStart(db.nextId, db.cells);
    var made := MatchRun(faults, pairs, db.nextId, p, start, Queries(db.cells), ops);
    MatchedQueries(db.nextId, pairs, ApplyAll(faults, pairs, p, ops).value.db.cells,
      ApplyQueries(ops, Queries(db.cells)), made);
  }

  /**
   Deduplication, from the plan to the notebook: if the notebook's queries were pairwise different,
   an applied plan leaves them so exactly when it recreates no cell's query twice over, the texts of
   the cells it leaves differ, and none of them is a query it adds.
   */
  lemma NotebookStaysDeduplicated(faults: set<nat>, db: Db, cells: seq<CanvasPlanCell>)
    requires UniqueIds(db.cells, db.nextId) && PairwiseDistinct(Queries(db.cells))
    requires ResolveAll(cells, Queries(db.cells), |cells|).Ok?
    requires OpsOutcome(faults, db, ResolveAll(cells, Queries(db.cells), |cells|).value.ops).Ok?
    ensures var queries := Queries(db.cells);
            var after := OpsOutcome(faults, db, ResolveAll(cells, queries, |cells|).value.ops).value.0;
            PairwiseDistinct(Queries(after.cells)) <==>
            NoneRecreatedTwice(cells, queries) && TextsLeftDiffer(cells, queries) && TextsLeftNotAdded(cells, queries)
  {
    hide *;
    DeduplicationIsSound(cells, Queries(db.cells));
    QueriesFollowOperations(faults, db, ResolveAll(cells, Queries(db.cells), |cells|).value.ops);
  }

  // ---------- All canvases ----------

  /** Every canvas has intact cells and an intact dashboard. */
  ghost predicate StateIntact(state: State)
  {
    forall id :: id in state.canvases ==> CanvasIntact(state.canvases[id], state.nextId)
  }

  ghost predicate CanvasIntact(canvas: Canvas, nextId: Id)
  {
    CellsIntact(canvas.cells, nextId) && DashboardIntact(Db(canvas.cells, canvas.dashboard, nextId, 0))
  }

  predicate KeysFresh(state: State)
  {
    forall id :: id in state.canvases ==> id < state.nextId
  }

  /** The canvas a plan works on is the target as it was, or a new one without cells. */
  lemma OpensTarget(faults: set<nat>, state: State, name: string, description: string, target: Option<Id>)
    requires Opened(faults, state, name, description, target).Ok?
    ensures var (id, canvas, reused, db) := Opened(faults, state, name, description, target).value;
            db.cells == canvas.cells && db.dashboard == canvas.dashboard && state.nextId <= db.nextId &&
            (reused ==> target == Some(id) && id in state.canvases && canvas == state.canvases[id]) &&
            (!reused ==> id == state.nextId && canvas.cells == [] && canvas.dashboard == Some([]))
  {
    hide Text.NonBlank;
  }

  lemma CommitsOutcome(faults: set<nat>, state: State, name: string, description: string, target: Option<Id>,
      ops: seq<CanvasOp>)
    requires PlanOutcome(faults, state, name, description, target, ops).Ok?
    ensures var (after, summary) := PlanOutcome(faults, state, name, description, target, ops).value;
            var opening := Opened(faults, state, name, description, target);
            opening.Ok? &&
            var (id, canvas, reused, db) := opening.value;
            OpsOutcome(faults, db, ops).Ok? &&
            var (left, changes) := OpsOutcome(faults, db, ops).value;
            after.nextId == left.nextId && summary.canvasId == id && summary.reused == reused &&
            summary.changes == changes &&
            (reused || changes.added > 0) && id in after.canvases &&
            after.canvases[id].cells == left.cells && after.canvases[id].dashboard == left.dashboard &&
            after.canvases.Keys == state.canvases.Keys + {id} &&
            forall other :: other in state.canvases && other != id ==> after.canvases[other] == state.canvases[other]
  {
    hide Text.NonBlank, Opened, OpsOutcome;
  }

  /**
   The canvas of a committed plan has the plan's name and description, trimmed; where one is blank, the
   target keeps its own, and a new canvas has the name as given and no description.
   */
  lemma CanvasIsNamed(faults: set<nat>, state: State, name: string, description: string, target: Option<Id>,
      ops: seq<CanvasOp>)
    requires PlanOutcome(faults, state, name, description, target, ops).Ok?
    ensures var (after, summary) := PlanOutcome(faults, state, name, description, target, ops).value;
            summary.canvasId in after.canvases && (summary.reused ==> summary.canvasId in state.canvases) &&
            var canvas := after.canvases[summary.canvasId];
            canvas.name == summary.name && canvas.description == summary.description && canvas.hasNotebook &&
            (if Text.HasText(name) then Text.IsTrimmed(name, canvas.name)
             else canvas.name == if summary.reused then state.canvases[summary.canvasId].name else name) &&
            if Text.HasText(description)
            then canvas.description.Some? && Text.IsTrimmed(description, canvas.description.value)
            else canvas.description ==
                 if summary.reused then state.canvases[summary.canvasId].description else None
  {
    hide OpsOutcome, Opened, Closed, Text.HasText, Text.IsTrimmed;
    OpenedCanvas(faults, state, name, description, target);
    var (id, canvas, reused, db) := Opened(faults, state, name, description, target).value;
    var (left, changes) := OpsOutcome(faults, db, ops).value;
    ClosedIsNamed(faults, state, id, canvas, reused, left, changes, name, description);
    Text.NonBlankIs(description);
  }

  lemma OpenedCanvas(faults: set<nat>, state: State, name: string, description: string, target: Option<Id>)
    requires Opened(faults, state, name, description, target).Ok?
    ensures var (id, canvas, reused, _) := Opened(faults, state, name, description, target).value;
            canvas.hasNotebook &&
            if reused then id in state.canvases && canvas == state.canvases[id]
            else canvas.name == name && canvas.description == Text.NonBlank(description)
  {
    hide Text.NonBlank;
  }

  lemma ClosedIsNamed(faults: set<nat>, state: State, id: Id, canvas: Canvas, reused: bool, db: Db, changes: Changes,
      name: string, description: string)
    requires Closed(faults, state, id, canvas, reused, db, changes, name, description).Ok?
    ensures var (after, summary) := Closed(faults, state, id, canvas, reused, db, changes, name, description).value;
            summary.canvasId == id && summary.reused == reused && id in after.canvases &&
            var named := after.canvases[id];
            named.name == summary.name && named.description == summary.description &&
            named.hasNotebook == canvas.hasNotebook &&
            (if Text.HasText(name) then Text.IsTrimmed(name, named.name) else named.name == canvas.name) &&
            if Text.HasText(description)
            then named.description.Some? && Text.IsTrimmed(description, named.description.value)
            else named.description == canvas.description
  {
    Text.NonBlankIs(name);
    Text.NonBlankIs(description);
    hide Text.NonBlank, Text.HasText, Text.IsTrimmed;
  }

  lemma IdsOnlyGrow(faults: set<nat>, db: Db, ops: seq<CanvasOp>)
    requires UniqueIds(db.cells, db.nextId) && OpsOutcome(faults, db, ops).Ok?
    ensures OpsOutcome(faults, db, ops).value.0.nextId >= db.nextId
  {
    var shape := ShapeOf(db.cells, db.nextId);
    var pairs, start := Pairs(db.cells), Opening(shape, db.nextId);
    hide *;
    OutcomeOutlines(faults, db, ops, shape);
    OpsRun(faults, db, ops);
    ConsistentRun(pairs, db.nextId, start, ops);
    var p := ApplyAll(faults, pairs, CanvasStore.Start(db), ops).value;
    OutlineIds(pairs, db.nextId, OutlineRun(pairs, start, ops), p);
  }

  lemma OutlineIds(pairs: seq<CellPair>, base: Id, o: Outline, p: Progress)
    requires Consistent(pairs, base, o) && Outlines(o, p)
    ensures p.db.nextId >= base
  {
    hide HasShape;
  }

  lemma IntactLater(canvas: Canvas, nextId: Id, later: Id)
    requires CanvasIntact(canvas, nextId) && nextId <= later
    ensures CanvasIntact(canvas, later)
  {
    hide DistinctEntries;
    assert UniqueIds(canvas.cells, later);
  }

  lemma IntactParts(canvas: Canvas, db: Db)
    requires db.cells == canvas.cells && db.dashboard == canvas.dashboard
    ensures CanvasIntact(canvas, db.nextId) <==> CellsIntact(db.cells, db.nextId) && DashboardIntact(db)
    ensures canvas.cells == [] && canvas.dashboard == Some([]) ==> CanvasIntact(canvas, db.nextId)
  {
  }

  /** No target cell, nothing unsafe to do to one. */
  lemma NewCanvasIsSafe(ops: seq<CanvasOp>)
    ensures Pairs([]) == [] && Safe(Pairs([]), ops)
  {
  }

  /**
   A committed plan keeps every canvas intact exactly when it is new or its operations are safe
   for the target; only the canvas it names changes.
   */
  lemma PlanKeepsIntegrityIffSafe(faults: set<nat>, state: State, name: string, description: string,
      target: Option<Id>, ops: seq<CanvasOp>)
    requires StateIntact(state) && KeysFresh(state) && PlanOutcome(faults, state, name, description, target, ops).Ok?
    ensures var (after, summary) := PlanOutcome(faults, state, name, description, target, ops).value;
            (forall other :: other in state.canvases && other != summary.canvasId ==>
               other in after.canvases && after.canvases[other] == state.canvases[other]) &&
            (summary.reused ==> target == Some(summary.canvasId) && summary.canvasId in state.canvases) &&
            (StateIntact(after) <==>
             (summary.reused ==> Safe(Pairs(state.canvases[summary.canvasId].cells), ops)))
  {
    hide Opened, OpsOutcome, PlanOutcome, CanvasIntact, Safe, Pairs, CellsIntact, DashboardIntact;
    CommitsOutcome(faults, state, name, description, target, ops);
    OpensTarget(faults, state, name, description, target);
    var (id, canvas, reused, db) := Opened(faults, state, name, description, target).value;
    var (left, _) := OpsOutcome(faults, db, ops).value;
    var after := PlanOutcome(faults, state, name, description, target, ops).value.0;
    IntactParts(canvas, db);
    if reused {
      IntactLater(canvas, state.nextId, db.nextId);
    }
    IntactIsUnique(db);
    IntactIffSafe(faults, db, ops);
    DashboardStaysIntact(faults, db, ops);
    IdsOnlyGrow(faults, db, ops);
    IntactParts(after.canvases[id], left);
    NewCanvasIsSafe(ops);
    forall other | other in state.canvases && other != id
      ensures CanvasIntact(after.canvases[other], after.nextId)
    {
      IntactLater(state.canvases[other], state.nextId, after.nextId);
    }
  }

  lemma IntactIsUnique(db: Db)
    requires CellsIntact(db.cells, db.nextId)
    ensures UniqueIds(db.cells, db.nextId)
  {
  }

  /** A new canvas is committed with at least one SQL cell, and exactly as many as were created. */
  lemma NewCanvasHasCells(faults: set<nat>, state: State, name: string, description: string, target: Option<Id>,
      ops: seq<CanvasOp>)
    requires PlanOutcome(faults, state, name, description, target, ops).Ok?
    requires !PlanOutcome(faults, state, name, description, target, ops).value.1.reused
    ensures var (after, summary) := PlanOutcome(faults, state, name, description, target, ops).value;
            summary.canvasId == state.nextId && summary.canvasId in after.canvases && summary.changes.removed == 0 &&
            SqlCount(after.canvases[summary.canvasId].cells) == summary.changes.added > 0
  {
    hide Opened, OpsOutcome, PlanOutcome, SqlCount;
    CommitsOutcome(faults, state, name, description, target, ops);
    OpensTarget(faults, state, name, description, target);
    var db := Opened(faults, state, name, description, target).value.3;
    NoSqlCells();
    SqlCellsAreConserved(faults, db, ops);
    NothingToRemove(faults, db, ops);
  }

  lemma NoSqlCells()
    ensures SqlCount([]) == 0
  {
  }

  lemma NothingToRemove(faults: set<nat>, db: Db, ops: seq<CanvasOp>)
    requires db.cells == [] && OpsOutcome(faults, db, ops).Ok?
    ensures OpsOutcome(faults, db, ops).value.1.removed == 0
  {
    OpsRun(faults, db, ops);
    assert Pairs(db.cells) == [];
    NoPairs(faults, CanvasStore.Start(db), ops);
    hide *;
  }

  lemma {:induction false} NoPairs(faults: set<nat>, p: Progress, ops: seq<CanvasOp>)
    requires ApplyAll(faults, [], p, ops).Ok?
    ensures ApplyAll(faults, [], p, ops).value.changes.removed == p.changes.removed
  {
    if ops != [] {
      NoPairs(faults, p, ops[..|ops| - 1]);
    }
  }

  // ---------- A plan that repeats a query is accepted ----------

  /** A notebook of one cell with this query, and an empty dashboard. */
  function OneCell(query: string): Db
  {
    Db([Cell(0, SqlCell, None, Some(Plain(query)), 0)], Some([]), 1, 0)
  }

  const DELETE_FIRST := CanvasPlanCell(DeleteCell, Some(1), None, None, None)

  function CreateAgain(query: string): CanvasPlanCell
  {
    CanvasPlanCell(CreateCell, None, None, Some(query), None)
  }

  /** Delete the first cell and create its query, and again. */
  function TwiceOver(query: string): seq<CanvasPlanCell>
  {
    [DELETE_FIRST, CreateAgain(query), DELETE_FIRST, CreateAgain(query)]
  }

  function TwiceOverOps(query: string): seq<CanvasOp>
  {
    [Delete(0), Create(None, query, None), Delete(0), Create(None, query, None)]
  }

  lemma ResolveStep(cells: seq<CanvasPlanCell>, queries: seq<string>, n: nat, r: Resolved, op: CanvasOp)
    requires n < |cells| && ResolveAll(cells, queries, n) == Ok(r) && ResolveOp(cells[n], |queries|) == Ok(Some(op))
    ensures ResolveAll(cells, queries, n + 1) == Ok(Accept(r, op, queries))
  {
    hide ResolveOp, Accept;
  }

  lemma TwiceOverResolves(query: string)
    requires Text.Trim(query) == query && query != ""
    ensures var resolved := ResolveAll(TwiceOver(query), [query], 4);
            resolved.Ok? && resolved.value.ops == TwiceOverOps(query)
  {
    hide NormalizeSql, Text.Trim;
    var cells, queries, key := TwiceOver(query), [query], NormalizeSql(query);
    var remove, make := Delete(0), Create(None, query, None);
    assert ResolveOp(DELETE_FIRST, 1) == Ok(Some(remove)) && ResolveOp(CreateAgain(query), 1) == Ok(Some(make));
    hide ResolveOp, ResolveAll;
    StartOfRun(cells, queries);
    assert key in Keys(queries) by {
      assert queries[0] in queries;
    }
    assert Keys(queries) == {key};
    ResolveStep(cells, queries, 0, Resolved({key}, []), remove);
    assert Accept(Resolved({key}, []), remove, queries) == Resolved({}, [remove]);
    ResolveStep(cells, queries, 1, Resolved({}, [remove]), make);
    assert Accept(Resolved({}, [remove]), make, queries) == Resolved({key}, [remove, make]);
    ResolveStep(cells, queries, 2, Resolved({key}, [remove, make]), remove);
    assert Accept(Resolved({key}, [remove, make]), remove, queries) == Resolved({}, [remove, make, remove]);
    ResolveStep(cells, queries, 3, Resolved({}, [remove, make, remove]), make);
  }

  lemma OnePair(query: string)
    ensures Pairs(OneCell(query).cells) == [CellPair(0, None, "", query)]
    ensures Without(OneCell(query).cells, 0) == []
  {
    var cells := OneCell(query).cells;
    assert cells[0].IsSql() && !cells[0].Draws(0) && ChartFor(cells, 0, 0) == None;
    assert ChartFor(cells, 1, 0) == None;
    assert PairOf(cells, cells[0]) == CellPair(0, None, "", query);
    assert PairsOf(cells, 0) == [];
    assert PairsOf(cells, 1) == [] + [PairOf(cells, cells[0])];
    assert cells[..|cells| - 1] == [];
    assert Without(cells[..|cells| - 1], 0) == [];
  }

  lemma TwiceOverApplies(query: string)
    ensures OpsOutcome({}, OneCell(query), TwiceOverOps(query)).Ok?
  {
    var db, ops := OneCell(query), TwiceOverOps(query);
    var pairs, start := Pairs(db.cells), CanvasStore.Start(db);
    OnePair(query);
    var p1 := ApplyOne({}, pairs, start, ops[0]).value;
    assert p1.db.cells == [] && p1.deleted == {0} && p1.queued == [] && p1.removedIds == [] by {
      hide PairsOf;
    }
    hide PairsOf;
    var p2 := ApplyOne({}, pairs, p1, ops[1]).value;
    var p3 := ApplyOne({}, pairs, p2, ops[2]).value;
    var p4 := ApplyOne({}, pairs, p3, ops[3]).value;
    hide ApplyOne;
    assert ops[..0] == [] && ops[..4] == ops;
    ApplyStep({}, pairs, start, ops, 0);
    ApplyStep({}, pairs, start, ops, 1);
    ApplyStep({}, pairs, start, ops, 2);
    ApplyStep({}, pairs, start, ops, 3);
  }

  /** The plan resolves and applies, and leaves the query in two cells. */
  lemma TwiceOverRepeats(query: string)
    requires Text.Trim(query) == query && query != ""
    ensures var db, cells := OneCell(query), TwiceOver(query);
            PairwiseDistinct(Queries(db.cells)) && ResolveAll(cells, Queries(db.cells), |cells|).Ok? &&
            var ops := ResolveAll(cells, Queries(db.cells), |cells|).value.ops;
            OpsOutcome({}, db, ops).Ok? && !PairwiseDistinct(Queries(OpsOutcome({}, db, ops).value.0.cells))
  {
    hide *;
    var db, cells := OneCell(query), TwiceOver(query);
    OneQuery(query);
    TwiceOverIsRecreated(query);
    OneCellIsFine(query);
    TwiceOverResolves(query);
    TwiceOverApplies(query);
    NotebookStaysDeduplicated({}, db, cells);
  }

  lemma OneCellIsFine(query: string)
    ensures |TwiceOver(query)| == 4 && PairwiseDistinct([query])
    ensures UniqueIds(OneCell(query).cells, OneCell(query).nextId)
  {
    hide NormalizeSql;
  }

  lemma OneQuery(query: string)
    ensures Queries(OneCell(query).cells) == [query]
  {
    var cells := OneCell(query).cells;
    assert cells[..|cells| - 1] == [];
    assert Rows(cells[..|cells| - 1]) == [] && cells[0].Query() == query;
    assert Rows(cells) == [] + [Row(0, query)];
  }

  lemma TwiceOverIsRecreated(query: string)
    requires Text.Trim(query) == query && query != ""
    ensures !NoneRecreatedTwice(TwiceOver(query), [query])
  {
    hide NormalizeSql, Text.Trim;
    var cells, queries := TwiceOver(query), [query];
    assert RecreatedAt(cells, queries, 0, 0, 1, 2, 3);
    assert RecreatedTwice(cells, queries, 0);
  }

  /** While that plan is resolved, there is a moment at which `present` is not the live queries. */
  lemma PresentLosesQuery(query: string)
    requires Text.Trim(query) == query && query != ""
    ensures var cells := TwiceOver(query);
            ResolveAll(cells, [query], |cells|).Ok? &&
            exists n: nat :: n <= |cells| && ResolveAll(cells, [query], n).Ok? && !PresentAgrees(cells, [query], n)
  {
    var cells, queries := TwiceOver(query), [query];
    TwiceOverIsDeletedAgain(query);
    OneCellIsFine(query);
    TwiceOverResolves(query);
    hide *;
    PresentIsLive(cells, queries);
    forall n: nat | n <= |cells|
      ensures ResolveAll(cells, queries, n).Ok?
    {
      PrefixResolves(cells, queries, n);
    }
  }

  lemma TwiceOverIsDeletedAgain(query: string)
    requires Text.Trim(query) == query && query != ""
    ensures !NoneDeletedAfterRecreation(TwiceOver(query), [query])
  {
    hide NormalizeSql, Text.Trim;
    var cells, queries := TwiceOver(query), [query];
    assert DeletedAndRecreatedAt(cells, queries, 0, 0, 1, 2);
    assert DeletedAfterRecreation(cells, queries, 0);
  }

  // ---------- When the target cannot be read ----------

  /** The target exists, but reading it or its notebook fails. */
  predicate ReadFails(faults: set<nat>, state: State, target: Option<Id>)
  {
    target.Some? && target.value in state.canvases &&
    (1 in faults || 2 in faults || !state.canvases[target.value].hasNotebook)
  }

  function Creations(ops: seq<CanvasOp>): seq<CanvasOp>
  {
    if ops == [] then []
    else if ops[|ops| - 1].Create? then Creations(ops[..|ops| - 1]) + [ops[|ops| - 1]]
    else Creations(ops[..|ops| - 1])
  }

  /** The queries the operations create, in order. */
  function CreatedTexts(ops: seq<CanvasOp>): (texts: seq<string>)
    ensures |texts| == |Creations(ops)|
  {
    if ops == [] then []
    else if ops[|ops| - 1].Create? then CreatedTexts(ops[..|ops| - 1]) + [ops[|ops| - 1].sql]
    else CreatedTexts(ops[..|ops| - 1])
  }

  /** With no pairs to touch, updates and deletions do nothing. */
  lemma {:induction false} OnlyCreations(faults: set<nat>, p: Progress, ops: seq<CanvasOp>)
    ensures ApplyAll(faults, [], p, ops) == ApplyAll(faults, [], p, Creations(ops))
    ensures var r := ApplyAll(faults, [], p, ops);
            r.Ok? ==> r.value.changes == p.changes.(added := p.changes.added + |Creations(ops)|)
  {
    if ops != [] {
      var n := |ops| - 1;
      var made, mid := Creations(ops[..n]), ApplyAll(faults, [], p, ops[..n]);
      OnlyCreations(faults, p, ops[..n]);
      if ops[n].Create? {
        assert (made + [ops[n]])[..|made|] == made;
      }
      if mid.Ok? {
        OneWithoutPairs(faults, mid.value, ops[n]);
      }
      hide ApplyOne;
    }
  }

  lemma OneWithoutPairs(faults: set<nat>, p: Progress, op: CanvasOp)
    ensures var r := ApplyOne(faults, [], p, op);
            if op.Create? then r.Ok? ==> r.value.changes == p.changes.(added := p.changes.added + 1) else r == Ok(p)
  {
  }

  lemma {:induction false} OnlyCreatedTexts(ops: seq<CanvasOp>)
    ensures ApplyQueries(ops, []) == Live([], CreatedTexts(ops))
  {
    if ops != [] {
      OnlyCreatedTexts(ops[..|ops| - 1]);
    }
  }

  lemma NewNotebookOutcome(faults: set<nat>, db: Db, ops: seq<CanvasOp>)
    requires db.cells == []
    ensures OpsOutcome(faults, db, ops) == OpsOutcome(faults, db, Creations(ops))
    ensures var r := OpsOutcome(faults, db, ops);
            r.Ok? ==> r.value.1 == Changes(|Creations(ops)|, 0, 0) && Queries(r.value.0.cells) == CreatedTexts(ops)
  {
    OnlyCreations(faults, CanvasStore.Start(db), ops);
    assert Pairs(db.cells) == [];
    hide ApplyAll, PairsOf;
    if OpsOutcome(faults, db, ops).Ok? {
      NewNotebookQueries(faults, db, ops);
      hide AppendToDashboard;
    }
  }

  lemma NewNotebookQueries(faults: set<nat>, db: Db, ops: seq<CanvasOp>)
    requires db.cells == [] && OpsOutcome(faults, db, ops).Ok?
    ensures Queries(OpsOutcome(faults, db, ops).value.0.cells) == CreatedTexts(ops)
  {
    hide OpsOutcome, ApplyQueries, CreatedTexts;
    QueriesFollowOperations(faults, db, ops);
    OnlyCreatedTexts(ops);
    assert Rows(db.cells) == [] && Queries(db.cells) == [];
    Unit(CreatedTexts(ops));
  }

  /** A committed plan works on its target exactly when the target exists and reading it does not fail. */
  lemma ReusedIffRead(
    faults: set<nat>, state: State, name: string, description: string, target: Option<Id>, ops: seq<CanvasOp>)
    requires PlanOutcome(faults, state, name, description, target, ops).Ok?
    ensures PlanOutcome(faults, state, name, description, target, ops).value.1.reused <==>
            target.Some? && target.value in state.canvases && !ReadFails(faults, state, target)
  {
    hide *;
    CommitsOutcome(faults, state, name, description, target, ops);
    OpenedReuses(faults, state, name, description, target);
  }

  lemma OpenedReuses(faults: set<nat>, state: State, name: string, description: string, target: Option<Id>)
    requires Opened(faults, state, name, description, target).Ok?
    ensures Opened(faults, state, name, description, target).value.2 <==>
            target.Some? && target.value in state.canvases && !ReadFails(faults, state, target)
  {
    hide Text.NonBlank;
  }

  /**
   When reading the target fails, a plan meant for it commits on a new canvas: the target stays as
   it was, the updates and deletions do nothing, and the new notebook has the created queries.
   */
  lemma FailedReadStartsAnew(
    faults: set<nat>, state: State, name: string, description: string, target: Option<Id>, ops: seq<CanvasOp>)
    requires KeysFresh(state) && ReadFails(faults, state, target)
    requires PlanOutcome(faults, state, name, description, target, ops).Ok?
    ensures var (after, summary) := PlanOutcome(faults, state, name, description, target, ops).value;
            summary.canvasId !in state.canvases && summary.changes == Changes(|Creations(ops)|, 0, 0) &&
            (forall id :: id in state.canvases ==> id in after.canvases && after.canvases[id] == state.canvases[id]) &&
            summary.canvasId in after.canvases && Queries(after.canvases[summary.canvasId].cells) == CreatedTexts(ops)
    ensures PlanOutcome(faults, state, name, description, target, ops) ==
            PlanOutcome(faults, state, name, description, target, Creations(ops))
  {
    ReusedIffRead(faults, state, name, description, target, ops);
    CommitsOutcome(faults, state, name, description, target, ops);
    OpensTarget(faults, state, name, description, target);
    NewNotebookOutcome(faults, Opened(faults, state, name, description, target).value.3, ops);
    hide OpsOutcome, Opened, Queries, Text.NonBlank;
  }

  /** And such a plan is accepted: here one that would update and delete the target's first cell. */
  lemma FailedReadIsCommitted(state: State, target: Id, name: string, query: string)
    requires KeysFresh(state) && target in state.canvases
    ensures var ops := [Update(0, None, Some(query), None), Create(None, query, None), Delete(0)];
            ReadFails({1}, state, Some(target)) && PlanOutcome({1}, state, name, "", Some(target), ops).Ok?
  {
    hide *;
    var update, create, remove := Update(0, None, Some(query), None), Create(None, query, None), Delete(0);
    var db := Db([], Some([]), state.nextId + 1, 5);
    OpensAnew(state, target, name);
    CountsOneCreation(db, update, create, remove);
    CommitsWhenAdded({1}, state, name, "", Some(target), [update, create, remove]);
  }

  lemma CommitsWhenAdded(faults: set<nat>, state: State, name: string, description: string, target: Option<Id>,
      ops: seq<CanvasOp>)
    requires Opened(faults, state, name, description, target).Ok?
    requires var db := Opened(faults, state, name, description, target).value.3;
             var r := OpsOutcome(faults, db, ops);
             r.Ok? && r.value.1.added > 0 && r.value.0.calls !in faults && r.value.0.calls + 1 !in faults
    ensures PlanOutcome(faults, state, name, description, target, ops).Ok?
  {
    hide Opened, OpsOutcome, Text.NonBlank;
  }

  lemma OpensAnew(state: State, target: Id, name: string)
    requires target in state.canvases
    ensures ReadFails({1}, state, Some(target))
    ensures var r := Opened({1}, state, name, "", Some(target));
            r.Ok? && !r.value.2 && r.value.3 == Db([], Some([]), state.nextId + 1, 5)
  {
    hide Text.NonBlank;
  }

  lemma OneCreatedIsApplied(db: Db, update: CanvasOp, create: CanvasOp, remove: CanvasOp)
    requires db.cells == [] && db.calls == 5 && create.Create? && create.chart.None? && update.Update? && remove.Delete?
    ensures var r := ApplyAll({1}, [], CanvasStore.Start(db), [update, create, remove]);
            r.Ok? && r.value.db.calls == 8 && r.value.queued == [] && r.value.removedIds == [] &&
            r.value.changes == Changes(1, 0, 0)
  {
    var one := [create];
    OnlyCreations({1}, CanvasStore.Start(db), [update, create, remove]);
    OneIsCreated(update, create, remove);
    assert one[..0] == [] && one[|one| - 1] == create;
    hide Creations, CreatedTexts;
    assert ApplyAll({1}, [], CanvasStore.Start(db), one[..0]) == Ok(CanvasStore.Start(db));
    assert ApplyAll({1}, [], CanvasStore.Start(db), one) == ApplyOne({1}, [], CanvasStore.Start(db), create);
  }

  lemma CountsOneCreation(db: Db, update: CanvasOp, create: CanvasOp, remove: CanvasOp)
    requires db.cells == [] && db.calls == 5 && create.Create? && create.chart.None? && update.Update? && remove.Delete?
    ensures var r := OpsOutcome({1}, db, [update, create, remove]);
            r.Ok? && r.value.0.calls == 8 && r.value.1.added == 1
  {
    OneCreatedIsApplied(db, update, create, remove);
    assert Pairs(db.cells) == [];
    hide ApplyAll, PairsOf, AppendToDashboard;
  }

  lemma OneIsCreated(update: CanvasOp, create: CanvasOp, remove: CanvasOp)
    requires !update.Create? && create.Create? && !remove.Create?
    ensures Creations([update, create, remove]) == [create]
  {
    var ops, two, one := [update, create, remove], [update, create], [update];
    assert ops[..2] == two && two[..1] == one && one[..0] == [];
    assert Creations(one) == [];
    assert Creations(two) == [] + [create];
  }
}
