/**
 What deduplication while resolving a plan (backend/src/ai/dto.rs) is worth once the operations
 are applied (backend/src/canvas/service.rs): which plans leave pairwise different queries.
 */
module CanvasDedup {
  import opened Wrappers
  import opened Sequences
  import opened Text
  import opened CanvasPlan

  // ---------- The queries of a canvas while operations are applied ----------

  /** The queries of the target's cells that are left, by index, and those of the created cells. */
  datatype Live = Live(slots: seq<Option<string>>, created: seq<string>)

  function ApplyQuery(live: Live, op: CanvasOp): (next: Live)
    ensures |next.slots| == |live.slots|
  {
    match op
    case Create(_, sql, _) => live.(created := live.created + [sql])
    case Update(index, _, newSql, _) =>
      if index < |live.slots| && live.slots[index].Some? && newSql.Some?
      then live.(slots := live.slots[index := newSql])
      else live
    case Delete(index) => if index < |live.slots| then live.(slots := live.slots[index := None]) else live
  }

  function Untouched(queries: seq<string>): Live
  {
    Live(seq(|queries|, i requires 0 <= i < |queries| => Some(queries[i])), [])
  }

  function ApplyQueries(ops: seq<CanvasOp>, queries: seq<string>): (live: Live)
    ensures |live.slots| == |queries|
  {
    if ops == [] then Untouched(queries)
    else ApplyQuery(ApplyQueries(ops[..|ops| - 1], queries), ops[|ops| - 1])
  }

  function Kept(slots: seq<Option<string>>): seq<string>
  {
    if slots == [] then []
    else
      var slot := slots[|slots| - 1];
      Kept(slots[..|slots| - 1]) + if slot.Some? then [slot.value] else []
  }

  function LiveQueries(live: Live): seq<string>
  {
    Kept(live.slots) + live.created
  }

  predicate PairwiseDistinct(queries: seq<string>)
  {
    forall i, j :: 0 <= i < j < |queries| ==> NormalizeSql(queries[i]) != NormalizeSql(queries[j])
  }

  /** How many queries are this one, after normalisation. */
  function CountKey(queries: seq<string>, key: string): nat
  {
    if queries == [] then 0
    else CountKey(queries[..|queries| - 1], key) + if NormalizeSql(queries[|queries| - 1]) == key then 1 else 0
  }

  lemma {:induction false} CountedIsThere(queries: seq<string>, key: string)
    ensures CountKey(queries, key) > 0 <==> exists i :: 0 <= i < |queries| && NormalizeSql(queries[i]) == key
  {
    hide NormalizeSql;
    if queries != [] {
      CountedIsThere(queries[..|queries| - 1], key);
    }
  }

  lemma {:induction false} DistinctCounts(queries: seq<string>, key: string)
    requires PairwiseDistinct(queries)
    ensures CountKey(queries, key) <= 1
  {
    hide NormalizeSql;
    if queries != [] {
      DistinctCounts(queries[..|queries| - 1], key);
      CountedIsThere(queries[..|queries| - 1], key);
    }
  }

  lemma {:induction false} RepeatCounts(queries: seq<string>, i: nat, j: nat)
    requires i < j < |queries| && NormalizeSql(queries[i]) == NormalizeSql(queries[j])
    ensures CountKey(queries, NormalizeSql(queries[i])) >= 2
    decreases |queries|
  {
    hide NormalizeSql;
    var n := |queries| - 1;
    if j == n {
      CountedIsThere(queries[..n], NormalizeSql(queries[..n][i]));
    } else {
      RepeatCounts(queries[..n], i, j);
    }
  }

  // ---------- The plans that go wrong ----------

  predicate Deletes(cell: CanvasPlanCell, count: nat, i: nat)
  {
    cell.action == DeleteCell && ToZeroBased(cell.targetCellIndex, count) == Some(i)
  }

  predicate Creates(cell: CanvasPlanCell, key: string)
  {
    cell.action == CreateCell && NonEmpty(cell.sql).Some? && NormalizeSql(NonEmpty(cell.sql).value) == key
  }

  predicate Recreates(cell: CanvasPlanCell, query: string)
  {
    Creates(cell, NormalizeSql(query))
  }

  predicate RecreatedAt(cells: seq<CanvasPlanCell>, queries: seq<string>, i: nat, a: nat, b: nat, c: nat, d: nat)
    requires i < |queries| && a < b < c < d < |cells|
  {
    Deletes(cells[a], |queries|, i) && Recreates(cells[b], queries[i]) &&
    Deletes(cells[c], |queries|, i) && Recreates(cells[d], queries[i])
  }

  /** The plan deletes cell i and creates its query again, and then does so once more. */
  ghost predicate RecreatedTwice(cells: seq<CanvasPlanCell>, queries: seq<string>, i: nat)
    requires i < |queries|
  {
    exists a: nat, b: nat, c: nat, d: nat :: a < b < c < d < |cells| && RecreatedAt(cells, queries, i, a, b, c, d)
  }

  predicate DeletedAndRecreatedAt(cells: seq<CanvasPlanCell>, queries: seq<string>, i: nat, a: nat, b: nat, c: nat)
    requires i < |queries| && a < b < c < |cells|
  {
    Deletes(cells[a], |queries|, i) && Recreates(cells[b], queries[i]) && Deletes(cells[c], |queries|, i)
  }

  /** The plan deletes cell i, creates its query again and deletes the cell a second time. */
  ghost predicate DeletedAfterRecreation(cells: seq<CanvasPlanCell>, queries: seq<string>, i: nat)
    requires i < |queries|
  {
    exists a: nat, b: nat, c: nat :: a < b < c < |cells| && DeletedAndRecreatedAt(cells, queries, i, a, b, c)
  }

  /** One of the first n plan cells deletes cell i. */
  predicate DeletedBefore(cells: seq<CanvasPlanCell>, count: nat, i: nat, n: nat)
    requires n <= |cells|
  {
    exists a :: 0 <= a < n && Deletes(cells[a], count, i)
  }

  /** The query an update gives to cell i. */
  function RewriteTo(cell: CanvasPlanCell, count: nat, i: nat): Option<string>
  {
    if cell.action == UpdateCell && ToZeroBased(cell.targetCellIndex, count) == Some(i)
    then NonEmpty(cell.sql) else None
  }

  /** The text of cell i after the first n plan cells, unless they delete it: that of the last update, or its own. */
  function TextAfter(cells: seq<CanvasPlanCell>, queries: seq<string>, i: nat, n: nat): string
    requires i < |queries| && n <= |cells|
  {
    if n == 0 then queries[i]
    else
      var text := RewriteTo(cells[n - 1], |queries|, i);
      if text.Some? then text.value else TextAfter(cells, queries, i, n - 1)
  }

  predicate ChangesQuery(cell: CanvasPlanCell, queries: seq<string>, i: nat)
    requires i < |queries|
  {
    var text := RewriteTo(cell, |queries|, i);
    text.Some? && NormalizeSql(text.value) != NormalizeSql(queries[i])
  }

  /** Plan cell b creates this query when no cell of the target that had it is left. */
  predicate Adds(cells: seq<CanvasPlanCell>, queries: seq<string>, b: nat, key: string)
    requires b < |cells|
  {
    Creates(cells[b], key) &&
    forall i :: 0 <= i < |queries| && NormalizeSql(queries[i]) == key ==> DeletedBefore(cells, |queries|, i, b)
  }

  /** The texts of the cells the plan leaves are pairwise different. */
  predicate TextsLeftDiffer(cells: seq<CanvasPlanCell>, queries: seq<string>)
  {
    forall i, j :: 0 <= i < j < |queries| &&
                   !DeletedBefore(cells, |queries|, i, |cells|) && !DeletedBefore(cells, |queries|, j, |cells|) ==>
      NormalizeSql(TextAfter(cells, queries, i, |cells|)) != NormalizeSql(TextAfter(cells, queries, j, |cells|))
  }

  /** No text of a cell the plan leaves is a query it adds. */
  predicate TextsLeftNotAdded(cells: seq<CanvasPlanCell>, queries: seq<string>)
  {
    forall i, b :: 0 <= i < |queries| && 0 <= b < |cells| && !DeletedBefore(cells, |queries|, i, |cells|) ==>
      !Adds(cells, queries, b, NormalizeSql(TextAfter(cells, queries, i, |cells|)))
  }

  ghost predicate NoneRecreatedTwice(cells: seq<CanvasPlanCell>, queries: seq<string>)
  {
    forall i :: 0 <= i < |queries| ==> !RecreatedTwice(cells, queries, i)
  }

  /** No update gives a cell another query. */
  predicate KeepsQueries(cells: seq<CanvasPlanCell>, queries: seq<string>)
  {
    forall k, i :: 0 <= k < |cells| && 0 <= i < |queries| ==> !ChangesQuery(cells[k], queries, i)
  }

  /** An update of a cell still there gives it another query. */
  ghost predicate ChangesLiveCell(cells: seq<CanvasPlanCell>, queries: seq<string>, m: nat, i: nat)
    requires i < |queries| && m < |cells|
  {
    ChangesQuery(cells[m], queries, i) && !DeletedBefore(cells, |queries|, i, m)
  }

  /** Whether the cell is the next step of delete, recreate, delete, recreate. */
  predicate Fits(cell: CanvasPlanCell, queries: seq<string>, i: nat, phase: nat)
    requires i < |queries|
  {
    if phase % 2 == 0 then Deletes(cell, |queries|, i) else Recreates(cell, queries[i])
  }

  /** How many steps of delete, recreate, delete, recreate the first n cells take. */
  function Phase(cells: seq<CanvasPlanCell>, queries: seq<string>, i: nat, n: nat): (phase: nat)
    requires i < |queries| && n <= |cells|
    ensures phase <= 4
  {
    if n == 0 then 0
    else
      var before := Phase(cells, queries, i, n - 1);
      if before < 4 && Fits(cells[n - 1], queries, i, before) then before + 1 else before
  }

  ghost predicate Chain(cells: seq<CanvasPlanCell>, queries: seq<string>, i: nat, n: nat, length: nat)
    requires i < |queries| && n <= |cells|
  {
    length > 0 ==>
      exists a :: 0 <= a < n && Fits(cells[a], queries, i, length - 1) && Chain(cells, queries, i, a, length - 1)
  }

  lemma {:induction false} ChainStep(cells: seq<CanvasPlanCell>, queries: seq<string>, i: nat, n: nat, length: nat)
    requires i < |queries| && n < |cells| && length > 0
    ensures Chain(cells, queries, i, n + 1, length) <==>
            Chain(cells, queries, i, n, length) ||
            (Fits(cells[n], queries, i, length - 1) && Chain(cells, queries, i, n, length - 1))
  {
    hide Fits;
  }

  lemma ChainOfNone(cells: seq<CanvasPlanCell>, queries: seq<string>, i: nat, n: nat)
    requires i < |queries| && n <= |cells|
    ensures Chain(cells, queries, i, n, 0)
    ensures forall length: nat :: length > 0 ==> !Chain(cells, queries, i, 0, length)
  {
    hide Fits;
  }

  lemma {:induction false} PhaseIsChain(cells: seq<CanvasPlanCell>, queries: seq<string>, i: nat, n: nat, length: nat)
    requires i < |queries| && n <= |cells| && length <= 4
    ensures Phase(cells, queries, i, n) >= length <==> Chain(cells, queries, i, n, length)
    decreases n
  {
    hide Fits, Chain;
    ChainOfNone(cells, queries, i, n);
    if n > 0 && length > 0 {
      PhaseIsChain(cells, queries, i, n - 1, length);
      PhaseIsChain(cells, queries, i, n - 1, length - 1);
      ChainStep(cells, queries, i, n - 1, length);
    }
  }

  lemma ChainToSteps(cells: seq<CanvasPlanCell>, queries: seq<string>, i: nat) returns (a: nat, b: nat, c: nat, d: nat)
    requires i < |queries| && Chain(cells, queries, i, |cells|, 4)
    ensures a < b < c < d < |cells| && RecreatedAt(cells, queries, i, a, b, c, d)
  {
    hide Deletes, Recreates;
    d :| 0 <= d < |cells| && Fits(cells[d], queries, i, 3) && Chain(cells, queries, i, d, 3);
    c :| 0 <= c < d && Fits(cells[c], queries, i, 2) && Chain(cells, queries, i, c, 2);
    b :| 0 <= b < c && Fits(cells[b], queries, i, 1) && Chain(cells, queries, i, b, 1);
    a :| 0 <= a < b && Fits(cells[a], queries, i, 0) && Chain(cells, queries, i, a, 0);
  }

  lemma StepsToChain(cells: seq<CanvasPlanCell>, queries: seq<string>, i: nat, a: nat, b: nat, c: nat, d: nat)
    requires i < |queries| && a < b < c < d < |cells| && RecreatedAt(cells, queries, i, a, b, c, d)
    ensures Chain(cells, queries, i, |cells|, 4)
  {
    hide Deletes, Recreates;
    assert Fits(cells[a], queries, i, 0) && Fits(cells[b], queries, i, 1);
    assert Fits(cells[c], queries, i, 2) && Fits(cells[d], queries, i, 3);
    hide Fits;
    assert Chain(cells, queries, i, a, 0);
    assert Chain(cells, queries, i, b, 1);
    assert Chain(cells, queries, i, c, 2);
    assert Chain(cells, queries, i, d, 3);
  }

  lemma PhaseFour(cells: seq<CanvasPlanCell>, queries: seq<string>, i: nat)
    requires i < |queries|
    ensures Phase(cells, queries, i, |cells|) == 4 <==> RecreatedTwice(cells, queries, i)
  {
    PhaseIsChain(cells, queries, i, |cells|, 4);
    hide RecreatedAt, Phase, Chain;
    if Chain(cells, queries, i, |cells|, 4) {
      var a, b, c, d := ChainToSteps(cells, queries, i);
    }
    if RecreatedTwice(cells, queries, i) {
      var a: nat, b: nat, c: nat, d: nat :| a < b < c < d < |cells| && RecreatedAt(cells, queries, i, a, b, c, d);
      StepsToChain(cells, queries, i, a, b, c, d);
    }
  }

  lemma ChainOfTwo(cells: seq<CanvasPlanCell>, queries: seq<string>, i: nat, n: nat)
    requires i < |queries| && n <= |cells|
    ensures Chain(cells, queries, i, n, 2) <==>
            exists b :: 0 <= b < n && Recreates(cells[b], queries[i]) && DeletedBefore(cells, |queries|, i, b)
  {
    hide Deletes, Recreates;
    if Chain(cells, queries, i, n, 2) {
      var b :| 0 <= b < n && Fits(cells[b], queries, i, 1) && Chain(cells, queries, i, b, 1);
      var a :| 0 <= a < b && Fits(cells[a], queries, i, 0) && Chain(cells, queries, i, a, 0);
    }
    if b :| 0 <= b < n && Recreates(cells[b], queries[i]) && DeletedBefore(cells, |queries|, i, b) {
      var a :| 0 <= a < b && Deletes(cells[a], |queries|, i);
      assert Fits(cells[a], queries, i, 0) && Chain(cells, queries, i, a, 0);
      assert Fits(cells[b], queries, i, 1) && Chain(cells, queries, i, b, 1);
    }
  }

  lemma ChainToThree(cells: seq<CanvasPlanCell>, queries: seq<string>, i: nat, n: nat)
    requires i < |queries| && n <= |cells| && Chain(cells, queries, i, n, 3)
    ensures DeletedAfterRecreation(cells, queries, i)
  {
    hide Deletes, Recreates;
    var c :| 0 <= c < n && Fits(cells[c], queries, i, 2) && Chain(cells, queries, i, c, 2);
    var b :| 0 <= b < c && Fits(cells[b], queries, i, 1) && Chain(cells, queries, i, b, 1);
    var a :| 0 <= a < b && Fits(cells[a], queries, i, 0) && Chain(cells, queries, i, a, 0);
    assert DeletedAndRecreatedAt(cells, queries, i, a, b, c);
  }

  lemma ThreeToChain(cells: seq<CanvasPlanCell>, queries: seq<string>, i: nat)
    requires i < |queries| && DeletedAfterRecreation(cells, queries, i)
    ensures Chain(cells, queries, i, |cells|, 3)
  {
    hide Deletes, Recreates;
    var a: nat, b: nat, c: nat :| a < b < c < |cells| && DeletedAndRecreatedAt(cells, queries, i, a, b, c);
    assert Fits(cells[a], queries, i, 0) && Fits(cells[b], queries, i, 1) && Fits(cells[c], queries, i, 2);
    hide Fits;
    assert Chain(cells, queries, i, a, 0);
    assert Chain(cells, queries, i, b, 1);
    assert Chain(cells, queries, i, c, 2);
  }

  /** The third step is taken somewhere exactly when the plan deletes the cell again after recreating its query. */
  lemma PhaseThree(cells: seq<CanvasPlanCell>, queries: seq<string>, i: nat)
    requires i < |queries|
    ensures Phase(cells, queries, i, |cells|) >= 3 <==> DeletedAfterRecreation(cells, queries, i)
  {
    PhaseIsChain(cells, queries, i, |cells|, 3);
    hide Phase, Chain, DeletedAfterRecreation;
    if Chain(cells, queries, i, |cells|, 3) {
      ChainToThree(cells, queries, i, |cells|);
    }
    if DeletedAfterRecreation(cells, queries, i) {
      ThreeToChain(cells, queries, i);
    }
  }

  lemma {:induction false} PhaseGrows(cells: seq<CanvasPlanCell>, queries: seq<string>, i: nat, n: nat, m: nat)
    requires i < |queries| && n <= m <= |cells|
    ensures Phase(cells, queries, i, n) <= Phase(cells, queries, i, m)
    decreases m
  {
    hide Fits;
    if n < m {
      PhaseGrows(cells, queries, i, n, m - 1);
    }
  }

  /** Phases are passed one at a time. */
  lemma {:induction false} PhaseReached(cells: seq<CanvasPlanCell>, queries: seq<string>, i: nat, n: nat, phase: nat)
      returns (m: nat)
    requires i < |queries| && n <= |cells| && phase <= Phase(cells, queries, i, n)
    ensures m <= n && Phase(cells, queries, i, m) == phase
    decreases n
  {
    hide Fits;
    if Phase(cells, queries, i, n) == phase {
      m := n;
    } else {
      m := PhaseReached(cells, queries, i, n - 1, phase);
    }
  }

  // ---------- What is present, step by step ----------

  /** Cell i after some plan cells: alive until deleted, then one copy of its query per recreation. */
  predicate Tracks(r: Resolved, live: Live, query: string, i: nat, phase: nat)
    requires i < |live.slots|
  {
    var key := NormalizeSql(query);
    (live.slots[i].Some? <==> phase == 0) &&
    (phase < 4 ==> CountKey(live.created, key) == phase / 2 && (key in r.present <==> phase % 2 == 0)) &&
    (phase >= 4 ==> CountKey(live.created, key) >= 2)
  }

  /** A query the canvas did not have is created at most once. */
  predicate TracksNew(r: Resolved, live: Live, key: string)
  {
    CountKey(live.created, key) == if key in r.present then 1 else 0
  }

  predicate FitsOp(op: CanvasOp, query: string, i: nat, phase: nat)
  {
    if phase % 2 == 0 then op == Delete(i) else op.Create? && NormalizeSql(op.sql) == NormalizeSql(query)
  }

  lemma OpOfCell(cell: CanvasPlanCell, queries: seq<string>)
    requires ResolveOp(cell, |queries|).Ok?
    ensures var op := ResolveOp(cell, |queries|).value;
            forall i, phase :: 0 <= i < |queries| && 0 <= phase ==>
              (Fits(cell, queries, i, phase) <==> op.Some? && FitsOp(op.value, queries[i], i, phase))
  {
    hide NonEmpty, NormalizeSql, ResolveChart;
  }

  /** What the operation does to cell i, in terms of the plan cell. */
  lemma OpOnCell(cell: CanvasPlanCell, count: nat, i: nat)
    requires ResolveOp(cell, count).Ok? && i < count
    ensures var op := ResolveOp(cell, count).value;
            (Deletes(cell, count, i) <==> op == Some(Delete(i))) &&
            (op.None? ==> RewriteTo(cell, count, i).None?) &&
            (op.Some? ==>
              RewriteTo(cell, count, i) == if op.value.Update? && op.value.index == i then op.value.newSql else None)
  {
    hide NonEmpty, ResolveChart;
  }

  lemma OpCreates(cell: CanvasPlanCell, count: nat, key: string)
    requires ResolveOp(cell, count).Ok?
    ensures var op := ResolveOp(cell, count).value;
            Creates(cell, key) <==> op.Some? && op.value.Create? && NormalizeSql(op.value.sql) == key
  {
    hide NonEmpty, NormalizeSql, ResolveChart;
  }

  lemma TrackCreate(r: Resolved, live: Live, op: CanvasOp, queries: seq<string>, i: nat, phase: nat)
    requires op.Create? && |live.slots| == |queries| && i < |queries| && Tracks(r, live, queries[i], i, phase)
    requires NormalizeSql(op.sql) !in r.present
    ensures Tracks(Accept(r, op, queries), ApplyQuery(live, op), queries[i], i,
                   if phase < 4 && FitsOp(op, queries[i], i, phase) then phase + 1 else phase)
  {
    hide NormalizeSql;
    CountSnoc(live.created, op.sql, NormalizeSql(queries[i]));
    hide CountKey;
  }

  lemma CountSnoc(queries: seq<string>, query: string, key: string)
    ensures CountKey(queries + [query], key) == CountKey(queries, key) + if NormalizeSql(query) == key then 1 else 0
  {
    hide NormalizeSql;
    assert (queries + [query])[..|queries|] == queries;
  }

  lemma TrackOther(r: Resolved, live: Live, op: CanvasOp, queries: seq<string>, i: nat, phase: nat)
    requires !op.Create? && |live.slots| == |queries| && i < |queries| && Tracks(r, live, queries[i], i, phase)
    requires PairwiseDistinct(queries)
    ensures Tracks(Accept(r, op, queries), ApplyQuery(live, op), queries[i], i,
                   if phase < 4 && FitsOp(op, queries[i], i, phase) then phase + 1 else phase)
  {
    hide NormalizeSql, CountKey;
    if op.index < |queries| && op.index != i {
      assert NormalizeSql(queries[op.index]) != NormalizeSql(queries[i]);
    }
  }

  /** Everything tracked after n plan cells. */
  ghost predicate Tracked(cells: seq<CanvasPlanCell>, queries: seq<string>, n: nat, r: Resolved, live: Live)
    requires n <= |cells|
  {
    |live.slots| == |queries| &&
    (forall i :: 0 <= i < |queries| ==> Tracks(r, live, queries[i], i, Phase(cells, queries, i, n))) &&
    forall key :: key !in Keys(queries) ==> TracksNew(r, live, key)
  }

  lemma TrackNew(r: Resolved, live: Live, op: CanvasOp, queries: seq<string>, key: string)
    requires key !in Keys(queries) && TracksNew(r, live, key)
    requires op.Create? ==> NormalizeSql(op.sql) !in r.present
    ensures TracksNew(Accept(r, op, queries), ApplyQuery(live, op), key)
  {
    hide NormalizeSql;
    if op.Create? {
      CountSnoc(live.created, op.sql, key);
    }
    if op.Delete? && op.index < |queries| {
      assert NormalizeSql(queries[op.index]) in Keys(queries);
    }
    hide CountKey;
  }

  lemma TrackedStep(cells: seq<CanvasPlanCell>, queries: seq<string>, n: nat, r: Resolved, live: Live)
    requires n < |cells| && Tracked(cells, queries, n, r, live) && PairwiseDistinct(queries)
    requires ResolveOp(cells[n], |queries|).Ok?
    ensures var op := ResolveOp(cells[n], |queries|).value;
            if op.None? || Dropped(r, op.value) then Tracked(cells, queries, n + 1, r, live)
            else Tracked(cells, queries, n + 1, Accept(r, op.value, queries), ApplyQuery(live, op.value))
  {
    hide ResolveOp, Fits, Tracks, TracksNew, Accept, ApplyQuery, FitsOp, PairwiseDistinct, NormalizeSql;
    OpOfCell(cells[n], queries);
    var op := ResolveOp(cells[n], |queries|).value;
    if op.None? {
    } else if Dropped(r, op.value) {
      forall i | 0 <= i < |queries|
        ensures Phase(cells, queries, i, n + 1) == Phase(cells, queries, i, n)
      {
        DroppedDoesNotFit(r, live, op.value, queries[i], i, Phase(cells, queries, i, n));
      }
    } else {
      forall i | 0 <= i < |queries|
        ensures Tracks(Accept(r, op.value, queries), ApplyQuery(live, op.value), queries[i], i,
                       Phase(cells, queries, i, n + 1))
      {
        TrackOp(r, live, op.value, queries, i, Phase(cells, queries, i, n));
      }
      forall key | key !in Keys(queries)
        ensures TracksNew(Accept(r, op.value, queries), ApplyQuery(live, op.value), key)
      {
        TrackKept(r, live, op.value, queries, key);
      }
    }
  }

  predicate Dropped(r: Resolved, op: CanvasOp)
  {
    op.Create? && NormalizeSql(op.sql) in r.present
  }

  lemma TrackKept(r: Resolved, live: Live, op: CanvasOp, queries: seq<string>, key: string)
    requires key !in Keys(queries) && TracksNew(r, live, key) && !Dropped(r, op)
    ensures TracksNew(Accept(r, op, queries), ApplyQuery(live, op), key)
  {
    TrackNew(r, live, op, queries, key);
  }

  lemma TrackOp(r: Resolved, live: Live, op: CanvasOp, queries: seq<string>, i: nat, phase: nat)
    requires !Dropped(r, op) && |live.slots| == |queries| && i < |queries| && Tracks(r, live, queries[i], i, phase)
    requires PairwiseDistinct(queries)
    ensures Tracks(Accept(r, op, queries), ApplyQuery(live, op), queries[i], i,
                   if phase < 4 && FitsOp(op, queries[i], i, phase) then phase + 1 else phase)
  {
    hide Tracks, FitsOp, Accept, ApplyQuery;
    if op.Create? {
      TrackCreate(r, live, op, queries, i, phase);
    } else {
      TrackOther(r, live, op, queries, i, phase);
    }
  }

  lemma DroppedDoesNotFit(r: Resolved, live: Live, op: CanvasOp, query: string, i: nat, phase: nat)
    requires i < |live.slots| && Tracks(r, live, query, i, phase) && Dropped(r, op)
    ensures phase < 4 ==> !FitsOp(op, query, i, phase)
  {
    hide NormalizeSql, CountKey;
  }

  lemma NothingApplied(queries: seq<string>, i: nat)
    requires i < |queries|
    ensures Tracks(Resolved(Keys(queries), []), Untouched(queries), queries[i], i, 0)
  {
    hide NormalizeSql;
    assert NormalizeSql(queries[i]) in Keys(queries);
  }

  lemma ApplySnoc(ops: seq<CanvasOp>, op: CanvasOp, queries: seq<string>)
    ensures ApplyQueries(ops + [op], queries) == ApplyQuery(ApplyQueries(ops, queries), op)
  {
    assert (ops + [op])[..|ops|] == ops;
  }

  lemma AcceptApplies(r: Resolved, op: CanvasOp, queries: seq<string>)
    ensures if Dropped(r, op) then Accept(r, op, queries) == r
            else ApplyQueries(Accept(r, op, queries).ops, queries) == ApplyQuery(ApplyQueries(r.ops, queries), op)
  {
    hide NormalizeSql, ApplyQuery;
    ApplySnoc(r.ops, op, queries);
  }

  lemma ResolveNext(cells: seq<CanvasPlanCell>, queries: seq<string>, n: nat)
    requires n < |cells| && ResolveAll(cells, queries, n + 1).Ok?
    ensures ResolveAll(cells, queries, n).Ok? && ResolveOp(cells[n], |queries|).Ok?
    ensures var r, op := ResolveAll(cells, queries, n).value, ResolveOp(cells[n], |queries|).value;
            ResolveAll(cells, queries, n + 1).value == if op.None? then r else Accept(r, op.value, queries)
  {
    hide ResolveOp, Accept, Keys;
  }

  lemma TrackedAtStart(cells: seq<CanvasPlanCell>, queries: seq<string>)
    ensures Tracked(cells, queries, 0, Resolved(Keys(queries), []), Untouched(queries))
  {
    hide NormalizeSql, Tracks;
    forall i | 0 <= i < |queries|
      ensures Tracks(Resolved(Keys(queries), []), Untouched(queries), queries[i], i, Phase(cells, queries, i, 0))
    {
      NothingApplied(queries, i);
    }
  }

  lemma StartOfRun(cells: seq<CanvasPlanCell>, queries: seq<string>)
    ensures ResolveAll(cells, queries, 0) == Ok(Resolved(Keys(queries), [])) &&
            ApplyQueries([], queries) == Untouched(queries)
  {
  }

  lemma {:induction false} TrackedRun(cells: seq<CanvasPlanCell>, queries: seq<string>, n: nat)
    requires n <= |cells| && PairwiseDistinct(queries) && ResolveAll(cells, queries, n).Ok?
    ensures var r := ResolveAll(cells, queries, n).value;
            Tracked(cells, queries, n, r, ApplyQueries(r.ops, queries))
  {
    hide *;
    if n == 0 {
      TrackedAtStart(cells, queries);
      StartOfRun(cells, queries);
    } else {
      ResolveNext(cells, queries, n - 1);
      TrackedRun(cells, queries, n - 1);
      var r := ResolveAll(cells, queries, n - 1).value;
      TrackedStep(cells, queries, n - 1, r, ApplyQueries(r.ops, queries));
      var op := ResolveOp(cells[n - 1], |queries|).value;
      if op.Some? {
        AcceptApplies(r, op.value, queries);
      }
    }
  }

  // ---------- The cells that are left ----------

  /** The slot of cell i says whether it was deleted, and its text if not. */
  predicate SlotTracks(cells: seq<CanvasPlanCell>, queries: seq<string>, i: nat, n: nat, slot: Option<string>)
    requires i < |queries| && n <= |cells|
  {
    slot == if DeletedBefore(cells, |queries|, i, n) then None else Some(TextAfter(cells, queries, i, n))
  }

  lemma DeletedStep(cells: seq<CanvasPlanCell>, count: nat, i: nat, n: nat)
    requires n < |cells|
    ensures DeletedBefore(cells, count, i, n + 1) <==> DeletedBefore(cells, count, i, n) || Deletes(cells[n], count, i)
  {
    hide Deletes;
  }

  lemma SlotStep(cells: seq<CanvasPlanCell>, queries: seq<string>, i: nat, n: nat, live: Live, r: Resolved)
    requires n < |cells| && i < |queries| == |live.slots| && SlotTracks(cells, queries, i, n, live.slots[i])
    requires ResolveOp(cells[n], |queries|).Ok?
    ensures var op := ResolveOp(cells[n], |queries|).value;
            SlotTracks(cells, queries, i, n + 1,
                       if op.None? || Dropped(r, op.value) then live.slots[i] else ApplyQuery(live, op.value).slots[i])
  {
    hide ResolveOp, Deletes, RewriteTo, NormalizeSql, DeletedBefore;
    OpOnCell(cells[n], |queries|, i);
    DeletedStep(cells, |queries|, i, n);
  }

  lemma SlotAtStart(cells: seq<CanvasPlanCell>, queries: seq<string>, i: nat)
    requires i < |queries|
    ensures |Untouched(queries).slots| == |queries| && SlotTracks(cells, queries, i, 0, Untouched(queries).slots[i])
  {
  }

  lemma {:induction false} SlotsTrack(cells: seq<CanvasPlanCell>, queries: seq<string>, i: nat, n: nat)
    requires n <= |cells| && i < |queries| && ResolveAll(cells, queries, n).Ok?
    ensures var live := ApplyQueries(ResolveAll(cells, queries, n).value.ops, queries);
            |live.slots| == |queries| && SlotTracks(cells, queries, i, n, live.slots[i])
  {
    hide *;
    if n == 0 {
      StartOfRun(cells, queries);
      SlotAtStart(cells, queries, i);
    } else {
      ResolveNext(cells, queries, n - 1);
      SlotsTrack(cells, queries, i, n - 1);
      var r := ResolveAll(cells, queries, n - 1).value;
      SlotStep(cells, queries, i, n - 1, ApplyQueries(r.ops, queries), r);
      var op := ResolveOp(cells[n - 1], |queries|).value;
      if op.Some? {
        AcceptApplies(r, op.value, queries);
      }
    }
  }

  // ---------- The queries that are created ----------

  lemma CreatedBeforeStep(cells: seq<CanvasPlanCell>, key: string, n: nat)
    requires n < |cells|
    ensures CreatedBefore(cells, key, n + 1) <==> CreatedBefore(cells, key, n) || Creates(cells[n], key)
  {
    hide Creates;
  }

  predicate CreatedBefore(cells: seq<CanvasPlanCell>, key: string, n: nat)
    requires n <= |cells|
  {
    exists b :: 0 <= b < n && Creates(cells[b], key)
  }

  lemma NoneCreated(cells: seq<CanvasPlanCell>, key: string)
    ensures !CreatedBefore(cells, key, 0)
  {
  }

  lemma NewStep(r: Resolved, op: CanvasOp, queries: seq<string>, key: string)
    requires key !in Keys(queries)
    ensures key in Accept(r, op, queries).present <==> key in r.present || (op.Create? && NormalizeSql(op.sql) == key)
  {
    hide NormalizeSql;
    if op.Delete? && op.index < |queries| {
      assert NormalizeSql(queries[op.index]) in Keys(queries);
    }
  }

  /** A query the target did not have is present once some plan cell creates it. */
  lemma {:induction false} NewIffCreated(cells: seq<CanvasPlanCell>, queries: seq<string>, n: nat, key: string)
    requires n <= |cells| && key !in Keys(queries) && ResolveAll(cells, queries, n).Ok?
    ensures key in ResolveAll(cells, queries, n).value.present <==> CreatedBefore(cells, key, n)
  {
    hide *;
    if n == 0 {
      StartOfRun(cells, queries);
      NoneCreated(cells, key);
    } else {
      ResolveNext(cells, queries, n - 1);
      NewIffCreated(cells, queries, n - 1, key);
      CreatedBeforeStep(cells, key, n - 1);
      OpCreates(cells[n - 1], |queries|, key);
      var op := ResolveOp(cells[n - 1], |queries|).value;
      if op.Some? {
        NewStep(ResolveAll(cells, queries, n - 1).value, op.value, queries, key);
      }
    }
  }

  predicate AddedBefore(cells: seq<CanvasPlanCell>, queries: seq<string>, key: string, n: nat)
    requires n <= |cells|
  {
    exists b :: 0 <= b < n && Adds(cells, queries, b, key)
  }

  lemma KeyOfOne(queries: seq<string>, key: string) returns (i: nat)
    requires key in Keys(queries)
    ensures i < |queries| && NormalizeSql(queries[i]) == key
  {
    hide NormalizeSql;
    var q :| q in queries && NormalizeSql(q) == key;
    i :| 0 <= i < |queries| && queries[i] == q;
  }

  lemma AddsOld(cells: seq<CanvasPlanCell>, queries: seq<string>, i: nat, b: nat)
    requires i < |queries| && b < |cells| && PairwiseDistinct(queries)
    ensures Adds(cells, queries, b, NormalizeSql(queries[i])) <==>
            Recreates(cells[b], queries[i]) && DeletedBefore(cells, |queries|, i, b)
  {
    hide NormalizeSql, Creates, DeletedBefore;
  }

  lemma AddsNew(cells: seq<CanvasPlanCell>, queries: seq<string>, b: nat, key: string)
    requires b < |cells| && key !in Keys(queries)
    ensures Adds(cells, queries, b, key) <==> Creates(cells[b], key)
  {
    hide NormalizeSql, Creates, DeletedBefore;
    forall i | 0 <= i < |queries|
      ensures NormalizeSql(queries[i]) != key
    {
      assert NormalizeSql(queries[i]) in Keys(queries);
    }
  }

  lemma AddedOld(cells: seq<CanvasPlanCell>, queries: seq<string>, i: nat, n: nat)
    requires i < |queries| && n <= |cells| && PairwiseDistinct(queries)
    ensures AddedBefore(cells, queries, NormalizeSql(queries[i]), n) <==> Phase(cells, queries, i, n) >= 2
  {
    hide NormalizeSql, Adds, PairwiseDistinct, Recreates, DeletedBefore, Phase, Chain;
    forall b | 0 <= b < n
      ensures Adds(cells, queries, b, NormalizeSql(queries[i])) <==>
              Recreates(cells[b], queries[i]) && DeletedBefore(cells, |queries|, i, b)
    {
      AddsOld(cells, queries, i, b);
    }
    PhaseIsChain(cells, queries, i, n, 2);
    ChainOfTwo(cells, queries, i, n);
  }

  lemma AddedNew(cells: seq<CanvasPlanCell>, queries: seq<string>, key: string, n: nat)
    requires n <= |cells| && key !in Keys(queries)
    ensures AddedBefore(cells, queries, key, n) <==> CreatedBefore(cells, key, n)
  {
    hide Adds, Creates, Keys;
    forall b | 0 <= b < n
      ensures Adds(cells, queries, b, key) <==> Creates(cells[b], key)
    {
      AddsNew(cells, queries, b, key);
    }
  }

  lemma TracksAt(cells: seq<CanvasPlanCell>, queries: seq<string>, i: nat, n: nat)
    requires n <= |cells| && i < |queries| && PairwiseDistinct(queries) && ResolveAll(cells, queries, n).Ok?
    ensures var r := ResolveAll(cells, queries, n).value;
            var live := ApplyQueries(r.ops, queries);
            |live.slots| == |queries| && Tracks(r, live, queries[i], i, Phase(cells, queries, i, n))
  {
    TrackedRun(cells, queries, n);
    hide Tracks, ResolveAll, ApplyQueries, Phase, PairwiseDistinct;
  }

  lemma TracksNewAt(cells: seq<CanvasPlanCell>, queries: seq<string>, n: nat, key: string)
    requires n <= |cells| && key !in Keys(queries) && PairwiseDistinct(queries) && ResolveAll(cells, queries, n).Ok?
    ensures var r := ResolveAll(cells, queries, n).value;
            TracksNew(r, ApplyQueries(r.ops, queries), key)
  {
    TrackedRun(cells, queries, n);
    hide Tracks, TracksNew, ResolveAll, ApplyQueries, Phase, PairwiseDistinct, Keys;
  }

  /** How often the plan created a query, and whether. */
  lemma CreatedCount(cells: seq<CanvasPlanCell>, queries: seq<string>, n: nat, key: string)
    requires n <= |cells| && PairwiseDistinct(queries) && ResolveAll(cells, queries, n).Ok?
    ensures var created := ApplyQueries(ResolveAll(cells, queries, n).value.ops, queries).created;
            CountKey(created, key) > 0 <==> AddedBefore(cells, queries, key, n)
  {
    hide ResolveAll, ApplyQueries, CountKey, Phase, PairwiseDistinct, NormalizeSql, Keys, AddedBefore, CreatedBefore;
    if key in Keys(queries) {
      var i := KeyOfOne(queries, key);
      TracksAt(cells, queries, i, n);
      AddedOld(cells, queries, i, n);
    } else {
      TracksNewAt(cells, queries, n, key);
      NewIffCreated(cells, queries, n, key);
      AddedNew(cells, queries, key, n);
    }
  }

  // ---------- When all queries left differ ----------

  predicate HasKey(queries: seq<string>, key: string)
  {
    exists i :: 0 <= i < |queries| && NormalizeSql(queries[i]) == key
  }

  lemma DistinctSnoc(queries: seq<string>, query: string)
    ensures PairwiseDistinct(queries + [query]) <==> PairwiseDistinct(queries) && !HasKey(queries, NormalizeSql(query))
  {
    hide NormalizeSql;
    var all := queries + [query];
    assert all[|queries|] == query;
    assert forall i :: 0 <= i < |queries| ==> all[i] == queries[i];
    if PairwiseDistinct(all) {
      forall i | 0 <= i < |queries|
        ensures NormalizeSql(queries[i]) != NormalizeSql(query)
      {
        assert NormalizeSql(all[i]) != NormalizeSql(all[|queries|]);
      }
      forall i, j | 0 <= i < j < |queries|
        ensures NormalizeSql(queries[i]) != NormalizeSql(queries[j])
      {
        assert NormalizeSql(all[i]) != NormalizeSql(all[j]);
      }
    }
  }

  lemma HasKeySnoc(queries: seq<string>, query: string, key: string)
    ensures HasKey(queries + [query], key) <==> HasKey(queries, key) || NormalizeSql(query) == key
  {
    hide NormalizeSql;
    var all := queries + [query];
    assert all[|queries|] == query;
    if HasKey(queries, key) {
      var i :| 0 <= i < |queries| && NormalizeSql(queries[i]) == key;
      assert all[i] == queries[i];
    }
  }

  lemma {:induction false} HasKeyConcat(a: seq<string>, b: seq<string>, key: string)
    ensures HasKey(a + b, key) <==> HasKey(a, key) || HasKey(b, key)
  {
    hide NormalizeSql, HasKey;
    if b == [] {
      Unit(a);
      NoKeys(key);
    } else {
      var n := |b| - 1;
      HasKeyConcat(a, b[..n], key);
      HasKeySnoc(a + b[..n], b[n], key);
      HasKeySnoc(b[..n], b[n], key);
      Snoc(b);
      Assoc(a, b[..n], [b[n]]);
    }
  }

  lemma NoKeys(key: string)
    ensures !HasKey([], key) && PairwiseDistinct([])
  {
  }

  ghost predicate Apart(a: seq<string>, b: seq<string>)
  {
    forall key :: HasKey(a, key) ==> !HasKey(b, key)
  }

  lemma {:induction false} DistinctConcat(a: seq<string>, b: seq<string>)
    ensures PairwiseDistinct(a + b) <==> PairwiseDistinct(a) && PairwiseDistinct(b) && Apart(a, b)
  {
    hide NormalizeSql, HasKey, PairwiseDistinct;
    if b == [] {
      Unit(a);
      NoKeys("");
      forall key
        ensures !HasKey(b, key)
      {
        NoKeys(key);
      }
    } else {
      var n := |b| - 1;
      DistinctConcat(a, b[..n]);
      Snoc(b);
      Assoc(a, b[..n], [b[n]]);
      DistinctSnoc(a + b[..n], b[n]);
      DistinctSnoc(b[..n], b[n]);
      HasKeyConcat(a, b[..n], NormalizeSql(b[n]));
      forall key
        ensures HasKey(b, key) <==> HasKey(b[..n], key) || NormalizeSql(b[n]) == key
      {
        HasKeySnoc(b[..n], b[n], key);
      }
    }
  }

  lemma KeptStep(slots: seq<Option<string>>, m: nat)
    requires m <= |slots|
    ensures Kept(slots[..m]) ==
            if m == 0 then []
            else if slots[m - 1].Some? then Kept(slots[..m - 1]) + [slots[m - 1].value]
            else Kept(slots[..m - 1])
  {
    if m > 0 {
      assert slots[..m][..m - 1] == slots[..m - 1];
    }
  }

  predicate SlotHas(slots: seq<Option<string>>, m: nat, key: string)
    requires m <= |slots|
  {
    exists i :: 0 <= i < m && slots[i].Some? && NormalizeSql(slots[i].value) == key
  }

  lemma {:induction false} KeptHas(slots: seq<Option<string>>, m: nat, key: string)
    requires m <= |slots|
    ensures HasKey(Kept(slots[..m]), key) <==> SlotHas(slots, m, key)
    decreases m
  {
    hide NormalizeSql, HasKey, Kept;
    KeptStep(slots, m);
    if m > 0 {
      KeptHas(slots, m - 1, key);
      if slots[m - 1].Some? {
        HasKeySnoc(Kept(slots[..m - 1]), slots[m - 1].value, key);
      }
    } else {
      NoKeys(key);
    }
  }

  predicate SlotsDiffer(slots: seq<Option<string>>, m: nat)
    requires m <= |slots|
  {
    forall i, j :: 0 <= i < j < m && slots[i].Some? && slots[j].Some? ==>
      NormalizeSql(slots[i].value) != NormalizeSql(slots[j].value)
  }

  lemma SlotsDifferStep(slots: seq<Option<string>>, m: nat)
    requires 0 < m <= |slots|
    ensures SlotsDiffer(slots, m) <==>
            SlotsDiffer(slots, m - 1) &&
            (slots[m - 1].Some? ==> !SlotHas(slots, m - 1, NormalizeSql(slots[m - 1].value)))
  {
    hide NormalizeSql;
  }

  lemma {:induction false} KeptDistinct(slots: seq<Option<string>>, m: nat)
    requires m <= |slots|
    ensures PairwiseDistinct(Kept(slots[..m])) <==> SlotsDiffer(slots, m)
    decreases m
  {
    hide NormalizeSql, HasKey, Kept, PairwiseDistinct;
    KeptStep(slots, m);
    if m > 0 {
      KeptDistinct(slots, m - 1);
      hide SlotsDiffer, SlotHas;
      SlotsDifferStep(slots, m);
      if slots[m - 1].Some? {
        DistinctSnoc(Kept(slots[..m - 1]), slots[m - 1].value);
        KeptHas(slots, m - 1, NormalizeSql(slots[m - 1].value));
      }
    } else {
      NoKeys("");
    }
  }

  lemma {:induction false} CountsMakeDistinct(queries: seq<string>)
    requires forall key :: CountKey(queries, key) <= 1
    ensures PairwiseDistinct(queries)
  {
    hide NormalizeSql, CountKey;
    forall i, j | 0 <= i < j < |queries|
      ensures NormalizeSql(queries[i]) != NormalizeSql(queries[j])
    {
      if NormalizeSql(queries[i]) == NormalizeSql(queries[j]) {
        RepeatCounts(queries, i, j);
      }
    }
  }

  /** The created queries are pairwise different for exactly the plans that recreate none twice over. */
  lemma CreatedDistinct(cells: seq<CanvasPlanCell>, queries: seq<string>)
    requires PairwiseDistinct(queries) && ResolveAll(cells, queries, |cells|).Ok?
    ensures PairwiseDistinct(ApplyQueries(ResolveAll(cells, queries, |cells|).value.ops, queries).created) <==>
            NoneRecreatedTwice(cells, queries)
  {
    var created := ApplyQueries(ResolveAll(cells, queries, |cells|).value.ops, queries).created;
    hide ResolveAll, ApplyQueries, CountKey, Phase, PairwiseDistinct, NormalizeSql, Keys, RecreatedTwice;
    if NoneRecreatedTwice(cells, queries) {
      forall key
        ensures CountKey(created, key) <= 1
      {
        if key in Keys(queries) {
          var i := KeyOfOne(queries, key);
          PhaseFour(cells, queries, i);
          TracksAt(cells, queries, i, |cells|);
        } else {
          TracksNewAt(cells, queries, |cells|, key);
        }
      }
      CountsMakeDistinct(created);
    } else {
      var i :| 0 <= i < |queries| && RecreatedTwice(cells, queries, i);
      PhaseFour(cells, queries, i);
      TracksAt(cells, queries, i, |cells|);
      if PairwiseDistinct(created) {
        DistinctCounts(created, NormalizeSql(queries[i]));
        assert false;
      }
    }
  }

  ghost predicate AllSlotsTrack(cells: seq<CanvasPlanCell>, queries: seq<string>, n: nat, slots: seq<Option<string>>)
    requires n <= |cells|
  {
    |slots| == |queries| && forall i :: 0 <= i < |queries| ==> SlotTracks(cells, queries, i, n, slots[i])
  }

  lemma TrackAllSlots(cells: seq<CanvasPlanCell>, queries: seq<string>, n: nat)
    requires n <= |cells| && ResolveAll(cells, queries, n).Ok?
    ensures AllSlotsTrack(cells, queries, n, ApplyQueries(ResolveAll(cells, queries, n).value.ops, queries).slots)
  {
    hide ResolveAll, ApplyQueries, SlotTracks;
    forall i | 0 <= i < |queries|
      ensures SlotTracks(cells, queries, i, n, ApplyQueries(ResolveAll(cells, queries, n).value.ops, queries).slots[i])
    {
      SlotsTrack(cells, queries, i, n);
    }
  }

  lemma SlotsDifferIffTexts(cells: seq<CanvasPlanCell>, queries: seq<string>, slots: seq<Option<string>>)
    requires AllSlotsTrack(cells, queries, |cells|, slots)
    ensures SlotsDiffer(slots, |slots|) <==> TextsLeftDiffer(cells, queries)
  {
    hide NormalizeSql, DeletedBefore, TextAfter;
    if SlotsDiffer(slots, |slots|) {
      forall i, j | 0 <= i < j < |queries| &&
                    !DeletedBefore(cells, |queries|, i, |cells|) && !DeletedBefore(cells, |queries|, j, |cells|)
        ensures NormalizeSql(TextAfter(cells, queries, i, |cells|)) !=
                NormalizeSql(TextAfter(cells, queries, j, |cells|))
      {
        assert SlotTracks(cells, queries, i, |cells|, slots[i]) && SlotTracks(cells, queries, j, |cells|, slots[j]);
      }
    }
    if TextsLeftDiffer(cells, queries) {
      forall i, j | 0 <= i < j < |slots| && slots[i].Some? && slots[j].Some?
        ensures NormalizeSql(slots[i].value) != NormalizeSql(slots[j].value)
      {
        assert SlotTracks(cells, queries, i, |cells|, slots[i]) && SlotTracks(cells, queries, j, |cells|, slots[j]);
      }
    }
  }

  lemma ApartIffNotAdded(cells: seq<CanvasPlanCell>, queries: seq<string>, live: Live)
    requires AllSlotsTrack(cells, queries, |cells|, live.slots)
    requires forall key :: HasKey(live.created, key) <==> AddedBefore(cells, queries, key, |cells|)
    ensures Apart(Kept(live.slots), live.created) <==> TextsLeftNotAdded(cells, queries)
  {
    hide NormalizeSql, DeletedBefore, TextAfter, HasKey, Adds, Kept;
    assert live.slots[..|live.slots|] == live.slots;
    forall key
      ensures HasKey(Kept(live.slots), key) <==> SlotHas(live.slots, |live.slots|, key)
    {
      KeptHas(live.slots, |live.slots|, key);
    }
    if Apart(Kept(live.slots), live.created) {
      forall i, b | 0 <= i < |queries| && 0 <= b < |cells| && !DeletedBefore(cells, |queries|, i, |cells|)
        ensures !Adds(cells, queries, b, NormalizeSql(TextAfter(cells, queries, i, |cells|)))
      {
        assert SlotTracks(cells, queries, i, |cells|, live.slots[i]);
        assert SlotHas(live.slots, |live.slots|, NormalizeSql(live.slots[i].value));
      }
    }
    if TextsLeftNotAdded(cells, queries) {
      forall key | HasKey(Kept(live.slots), key)
        ensures !HasKey(live.created, key)
      {
        var i :| 0 <= i < |live.slots| && live.slots[i].Some? && NormalizeSql(live.slots[i].value) == key;
        assert SlotTracks(cells, queries, i, |cells|, live.slots[i]);
      }
    }
  }

  lemma CreatedHas(cells: seq<CanvasPlanCell>, queries: seq<string>, n: nat, key: string)
    requires n <= |cells| && PairwiseDistinct(queries) && ResolveAll(cells, queries, n).Ok?
    ensures HasKey(ApplyQueries(ResolveAll(cells, queries, n).value.ops, queries).created, key) <==>
            AddedBefore(cells, queries, key, n)
  {
    hide ResolveAll, ApplyQueries, CountKey, PairwiseDistinct, NormalizeSql, AddedBefore;
    CreatedCount(cells, queries, n, key);
    CountedIsThere(ApplyQueries(ResolveAll(cells, queries, n).value.ops, queries).created, key);
  }

  /**
   Any resolved plan, against pairwise different queries, leaves pairwise different queries
   exactly when it does not delete a cell and create its query again twice over, the texts of
   the cells it leaves are pairwise different, and none of them is a query it adds.
   */
  lemma DeduplicationIsSound(cells: seq<CanvasPlanCell>, queries: seq<string>)
    requires PairwiseDistinct(queries) && ResolveAll(cells, queries, |cells|).Ok?
    ensures var ops := ResolveAll(cells, queries, |cells|).value.ops;
            PairwiseDistinct(LiveQueries(ApplyQueries(ops, queries))) <==>
            NoneRecreatedTwice(cells, queries) && TextsLeftDiffer(cells, queries) && TextsLeftNotAdded(cells, queries)
  {
    hide *;
    var live := ApplyQueries(ResolveAll(cells, queries, |cells|).value.ops, queries);
    LiveDistinct(live);
    CreatedDistinct(cells, queries);
    TrackAllSlots(cells, queries, |cells|);
    SlotsDifferIffTexts(cells, queries, live.slots);
    forall key
      ensures HasKey(live.created, key) <==> AddedBefore(cells, queries, key, |cells|)
    {
      CreatedHas(cells, queries, |cells|, key);
    }
    ApartIffNotAdded(cells, queries, live);
  }

  lemma LiveDistinct(live: Live)
    ensures PairwiseDistinct(LiveQueries(live)) <==>
            SlotsDiffer(live.slots, |live.slots|) && PairwiseDistinct(live.created) &&
            Apart(Kept(live.slots), live.created)
  {
    assert live.slots[..|live.slots|] == live.slots;
    KeptDistinct(live.slots, |live.slots|);
    DistinctConcat(Kept(live.slots), live.created);
    hide PairwiseDistinct, Apart, Kept, SlotsDiffer;
  }

  lemma {:induction false} KeptText(cells: seq<CanvasPlanCell>, queries: seq<string>, i: nat, n: nat)
    requires i < |queries| && n <= |cells|
    requires forall k :: 0 <= k < n ==> !ChangesQuery(cells[k], queries, i)
    ensures NormalizeSql(TextAfter(cells, queries, i, n)) == NormalizeSql(queries[i])
  {
    hide NormalizeSql, RewriteTo;
    if n > 0 {
      KeptText(cells, queries, i, n - 1);
    }
  }

  /** For a plan whose updates keep the queries they touch, the first condition is the only one. */
  lemma KeepingPlans(cells: seq<CanvasPlanCell>, queries: seq<string>)
    requires PairwiseDistinct(queries) && KeepsQueries(cells, queries)
    ensures TextsLeftDiffer(cells, queries) && TextsLeftNotAdded(cells, queries)
  {
    hide NormalizeSql, TextAfter, Deletes, Creates, ChangesQuery;
    forall i | 0 <= i < |queries|
      ensures NormalizeSql(TextAfter(cells, queries, i, |cells|)) == NormalizeSql(queries[i])
    {
      KeptText(cells, queries, i, |cells|);
    }
  }

  // ---------- When `present` is the queries of the live cells ----------

  /** After n plan cells, `present` is exactly the normalised queries of the cells then in the canvas. */
  ghost predicate PresentAgrees(cells: seq<CanvasPlanCell>, queries: seq<string>, n: nat)
    requires n <= |cells| && ResolveAll(cells, queries, n).Ok?
  {
    var r := ResolveAll(cells, queries, n).value;
    forall key :: key in r.present <==> HasKey(LiveQueries(ApplyQueries(r.ops, queries)), key)
  }

  /** Each slot left still has the query it had, as the planner sees it. */
  predicate Aligned(slots: seq<Option<string>>, queries: seq<string>)
  {
    |slots| == |queries| &&
    forall i :: 0 <= i < |slots| && slots[i].Some? ==> NormalizeSql(slots[i].value) == NormalizeSql(queries[i])
  }

  lemma LiveHas(live: Live, key: string)
    ensures HasKey(LiveQueries(live), key) <==>
            SlotHas(live.slots, |live.slots|, key) || CountKey(live.created, key) > 0
  {
    assert live.slots[..|live.slots|] == live.slots;
    KeptHas(live.slots, |live.slots|, key);
    HasKeyConcat(Kept(live.slots), live.created, key);
    CountedIsThere(live.created, key);
    hide NormalizeSql, Kept, SlotHas, CountKey;
  }

  ghost predicate UnchangedBefore(cells: seq<CanvasPlanCell>, queries: seq<string>, n: nat)
    requires n <= |cells|
  {
    forall m: nat, i: nat :: m < n && i < |queries| ==> !ChangesLiveCell(cells, queries, m, i)
  }

  lemma UnchangedIsAligned(cells: seq<CanvasPlanCell>, queries: seq<string>, n: nat, slots: seq<Option<string>>)
    requires n <= |cells| && AllSlotsTrack(cells, queries, n, slots) && UnchangedBefore(cells, queries, n)
    ensures Aligned(slots, queries)
  {
    hide NormalizeSql, TextAfter, Deletes, ChangesQuery;
    forall i | 0 <= i < |slots| && slots[i].Some?
      ensures NormalizeSql(slots[i].value) == NormalizeSql(queries[i])
    {
      assert SlotTracks(cells, queries, i, n, slots[i]);
      forall k | 0 <= k < n
        ensures !ChangesQuery(cells[k], queries, i)
      {
        assert !ChangesLiveCell(cells, queries, k, i);
      }
      KeptText(cells, queries, i, n);
    }
  }

  lemma AlignedSlotHas(slots: seq<Option<string>>, queries: seq<string>, key: string)
    requires Aligned(slots, queries) && PairwiseDistinct(queries)
    ensures key !in Keys(queries) ==> !SlotHas(slots, |slots|, key)
    ensures forall i :: 0 <= i < |queries| && NormalizeSql(queries[i]) == key ==>
              (SlotHas(slots, |slots|, key) <==> slots[i].Some?)
  {
    hide NormalizeSql;
    forall i | 0 <= i < |queries|
      ensures NormalizeSql(queries[i]) in Keys(queries)
    {
    }
  }

  /** One key of `present` against the live queries, from what is tracked about it. */
  lemma AgreesOnKey(cells: seq<CanvasPlanCell>, queries: seq<string>, n: nat, r: Resolved, live: Live, key: string)
    requires n <= |cells| && Aligned(live.slots, queries) && PairwiseDistinct(queries) && |live.slots| == |queries|
    requires forall i :: 0 <= i < |queries| ==>
               Tracks(r, live, queries[i], i, Phase(cells, queries, i, n)) && Phase(cells, queries, i, n) <= 2
    requires key !in Keys(queries) ==> TracksNew(r, live, key)
    ensures key in r.present <==> HasKey(LiveQueries(live), key)
  {
    hide CountKey, Phase, PairwiseDistinct, NormalizeSql, Keys, Aligned, SlotHas, HasKey, LiveQueries, Tracks;
    LiveHas(live, key);
    AlignedSlotHas(live.slots, queries, key);
    if key in Keys(queries) {
      var i := KeyOfOne(queries, key);
      LowPhase(r, live, queries[i], i, Phase(cells, queries, i, n));
    }
  }

  lemma LowPhase(r: Resolved, live: Live, query: string, i: nat, phase: nat)
    requires i < |live.slots| && Tracks(r, live, query, i, phase) && phase <= 2
    ensures NormalizeSql(query) in r.present <==> live.slots[i].Some? || CountKey(live.created, NormalizeSql(query)) > 0
  {
    hide NormalizeSql, CountKey;
  }

  lemma AgreesWhenAligned(cells: seq<CanvasPlanCell>, queries: seq<string>, n: nat)
    requires n <= |cells| && PairwiseDistinct(queries) && ResolveAll(cells, queries, n).Ok?
    requires Aligned(ApplyQueries(ResolveAll(cells, queries, n).value.ops, queries).slots, queries)
    requires forall i :: 0 <= i < |queries| ==> Phase(cells, queries, i, n) <= 2
    ensures PresentAgrees(cells, queries, n)
  {
    var r := ResolveAll(cells, queries, n).value;
    var live := ApplyQueries(r.ops, queries);
    hide ResolveAll, ApplyQueries, Phase, PairwiseDistinct, NormalizeSql, Keys, Aligned, HasKey, LiveQueries, Tracks,
         TracksNew;
    forall i | 0 <= i < |queries|
      ensures Tracks(r, live, queries[i], i, Phase(cells, queries, i, n))
    {
      TracksAt(cells, queries, i, n);
    }
    forall key
      ensures key in r.present <==> HasKey(LiveQueries(live), key)
    {
      if key !in Keys(queries) {
        TracksNewAt(cells, queries, n, key);
      }
      AgreesOnKey(cells, queries, n, r, live, key);
    }
  }

  /** After the second deletion the recreated query lives, and `present` has lost it. */
  lemma SecondDeletionDisagrees(cells: seq<CanvasPlanCell>, queries: seq<string>, n: nat, i: nat)
    requires n <= |cells| && PairwiseDistinct(queries) && ResolveAll(cells, queries, n).Ok?
    requires i < |queries| && Phase(cells, queries, i, n) == 3
    ensures !PresentAgrees(cells, queries, n)
  {
    hide ResolveAll, ApplyQueries, CountKey, Phase, PairwiseDistinct, NormalizeSql, SlotHas, HasKey, LiveQueries;
    TracksAt(cells, queries, i, n);
    LiveHas(ApplyQueries(ResolveAll(cells, queries, n).value.ops, queries), NormalizeSql(queries[i]));
  }

  /** After the first update that changes a live cell's query, `present` still has the old one. */
  lemma ChangeDisagrees(cells: seq<CanvasPlanCell>, queries: seq<string>, m: nat, i: nat)
    requires m < |cells| && PairwiseDistinct(queries) && ResolveAll(cells, queries, m + 1).Ok?
    requires i < |queries| && ChangesLiveCell(cells, queries, m, i) && UnchangedBefore(cells, queries, m)
    ensures !PresentAgrees(cells, queries, m + 1)
  {
    var r := ResolveAll(cells, queries, m + 1).value;
    var live, key := ApplyQueries(r.ops, queries), NormalizeSql(queries[i]);
    hide ResolveAll, ApplyQueries, CountKey, Phase, PairwiseDistinct, NormalizeSql, HasKey, LiveQueries, SlotHas,
         SlotTracks, ChangesLiveCell, UnchangedBefore;
    TracksAt(cells, queries, i, m + 1);
    TrackAllSlots(cells, queries, m + 1);
    ChangedSlot(cells, queries, m, i, live.slots);
    LiveHas(live, key);
  }

  /** After a step, the slot of a cell that the step leaves alone keeps its key. */
  lemma OtherSlot(cells: seq<CanvasPlanCell>, queries: seq<string>, m: nat, j: nat, slot: Option<string>)
    requires m < |cells| && j < |queries| && UnchangedBefore(cells, queries, m)
    requires SlotTracks(cells, queries, j, m + 1, slot) && RewriteTo(cells[m], |queries|, j).None?
    ensures slot.Some? ==> NormalizeSql(slot.value) == NormalizeSql(queries[j])
  {
    hide NormalizeSql, TextAfter, RewriteTo, UnchangedBefore, DeletedBefore;
    DeletedStep(cells, |queries|, j, m);
    TextStep(cells, queries, j, m);
    if slot.Some? {
      OtherText(cells, queries, m, j);
    }
  }

  lemma ChangedCell(cells: seq<CanvasPlanCell>, queries: seq<string>, m: nat, i: nat, slot: Option<string>)
    requires m < |cells| && i < |queries| && SlotTracks(cells, queries, i, m + 1, slot) &&
             ChangesLiveCell(cells, queries, m, i)
    ensures slot.Some? && NormalizeSql(slot.value) != NormalizeSql(queries[i])
    ensures forall j :: 0 <= j < |queries| && j != i ==> RewriteTo(cells[m], |queries|, j).None?
  {
    hide NormalizeSql, TextAfter, NonEmpty, Trim, ToZeroBased;
    DeletedStep(cells, |queries|, i, m);
    TextStep(cells, queries, i, m);
  }

  lemma ChangedSlot(cells: seq<CanvasPlanCell>, queries: seq<string>, m: nat, i: nat, slots: seq<Option<string>>)
    requires m < |cells| && PairwiseDistinct(queries) && i < |queries| && AllSlotsTrack(cells, queries, m + 1, slots)
    requires ChangesLiveCell(cells, queries, m, i) && UnchangedBefore(cells, queries, m)
    ensures slots[i].Some? && !SlotHas(slots, |slots|, NormalizeSql(queries[i]))
  {
    hide NormalizeSql, RewriteTo, SlotTracks, ChangesLiveCell, UnchangedBefore;
    ChangedCell(cells, queries, m, i, slots[i]);
    forall j | 0 <= j < |slots| && slots[j].Some?
      ensures NormalizeSql(slots[j].value) != NormalizeSql(queries[i])
    {
      if j != i {
        OtherSlot(cells, queries, m, j, slots[j]);
      }
    }
  }

  lemma TextStep(cells: seq<CanvasPlanCell>, queries: seq<string>, i: nat, m: nat)
    requires m < |cells| && i < |queries|
    ensures var text := RewriteTo(cells[m], |queries|, i);
            TextAfter(cells, queries, i, m + 1) == if text.Some? then text.value else TextAfter(cells, queries, i, m)
  {
  }

  lemma OtherText(cells: seq<CanvasPlanCell>, queries: seq<string>, m: nat, j: nat)
    requires m <= |cells| && j < |queries| && UnchangedBefore(cells, queries, m) &&
             !DeletedBefore(cells, |queries|, j, m)
    ensures NormalizeSql(TextAfter(cells, queries, j, m)) == NormalizeSql(queries[j])
  {
    hide NormalizeSql, TextAfter, Deletes, ChangesQuery;
    forall k | 0 <= k < m
      ensures !ChangesQuery(cells[k], queries, j)
    {
      assert !ChangesLiveCell(cells, queries, k, j);
    }
    KeptText(cells, queries, j, m);
  }

  lemma {:induction false} FirstChange(cells: seq<CanvasPlanCell>, queries: seq<string>, n: nat)
      returns (m: nat, i: nat)
    requires n <= |cells| && !UnchangedBefore(cells, queries, n)
    ensures m < n && i < |queries| && ChangesLiveCell(cells, queries, m, i) && UnchangedBefore(cells, queries, m)
    decreases n
  {
    hide ChangesLiveCell;
    if !UnchangedBefore(cells, queries, n - 1) {
      m, i := FirstChange(cells, queries, n - 1);
    } else {
      m := n - 1;
      i :| 0 <= i < |queries| && ChangesLiveCell(cells, queries, m, i);
    }
  }

  lemma PrefixResolves(cells: seq<CanvasPlanCell>, queries: seq<string>, n: nat)
    requires n <= |cells| && ResolveAll(cells, queries, |cells|).Ok?
    ensures ResolveAll(cells, queries, n).Ok?
  {
    hide ResolveAll;
    if ResolveAll(cells, queries, n).Err? {
      ErrorStays(cells, queries, n, |cells|);
    }
  }

  ghost predicate NoneDeletedAfterRecreation(cells: seq<CanvasPlanCell>, queries: seq<string>)
  {
    forall i :: 0 <= i < |queries| ==> !DeletedAfterRecreation(cells, queries, i)
  }

  /**
   While a plan is resolved, `present` is at every moment the queries of the cells then in the
   canvas, exactly when the plan neither deletes a cell again after recreating its query nor gives
   a cell still there another query.
   */
  lemma PresentIsLive(cells: seq<CanvasPlanCell>, queries: seq<string>)
    requires PairwiseDistinct(queries) && ResolveAll(cells, queries, |cells|).Ok?
    ensures (forall n: nat :: n <= |cells| ==>
              ResolveAll(cells, queries, n).Ok? && PresentAgrees(cells, queries, n)) <==>
            NoneDeletedAfterRecreation(cells, queries) && UnchangedBefore(cells, queries, |cells|)
  {
    hide *;
    if !UnchangedBefore(cells, queries, |cells|) {
      var m, i := FirstChange(cells, queries, |cells|);
      PrefixResolves(cells, queries, m + 1);
      ChangeDisagrees(cells, queries, m, i);
    } else if !NoneDeletedAfterRecreation(cells, queries) {
      var i := DeletedAgain(cells, queries);
      PhaseThree(cells, queries, i);
      var m := PhaseReached(cells, queries, i, |cells|, 3);
      PrefixResolves(cells, queries, m);
      SecondDeletionDisagrees(cells, queries, m, i);
    } else {
      forall n: nat | n <= |cells|
        ensures ResolveAll(cells, queries, n).Ok? && PresentAgrees(cells, queries, n)
      {
        PrefixResolves(cells, queries, n);
        AgreesAt(cells, queries, n);
      }
    }
  }

  lemma DeletedAgain(cells: seq<CanvasPlanCell>, queries: seq<string>) returns (i: nat)
    requires !NoneDeletedAfterRecreation(cells, queries)
    ensures i < |queries| && DeletedAfterRecreation(cells, queries, i)
  {
    hide DeletedAfterRecreation;
    i :| 0 <= i < |queries| && DeletedAfterRecreation(cells, queries, i);
  }

  lemma AgreesAt(cells: seq<CanvasPlanCell>, queries: seq<string>, n: nat)
    requires n <= |cells| && PairwiseDistinct(queries) && ResolveAll(cells, queries, n).Ok?
    requires NoneDeletedAfterRecreation(cells, queries) && UnchangedBefore(cells, queries, |cells|)
    ensures PresentAgrees(cells, queries, n)
  {
    assert UnchangedBefore(cells, queries, n) by {
      hide ChangesLiveCell;
    }
    hide ResolveAll, PresentAgrees, PairwiseDistinct, Phase, DeletedAfterRecreation, UnchangedBefore, ApplyQueries,
         SlotTracks;
    forall i | 0 <= i < |queries|
      ensures Phase(cells, queries, i, n) <= 2
    {
      PhaseThree(cells, queries, i);
      PhaseGrows(cells, queries, i, n, |cells|);
    }
    TrackAllSlots(cells, queries, n);
    UnchangedIsAligned(cells, queries, n, ApplyQueries(ResolveAll(cells, queries, n).value.ops, queries).slots);
    AgreesWhenAligned(cells, queries, n);
  }

  /** Rewriting a cell's query goes unchecked: one update can repeat another cell's query. */
  lemma RewritingCanRepeat(a: string, b: string)
    requires NormalizeSql(a) != NormalizeSql(b) && Trim(b) == b && b != ""
    ensures var cells := [CanvasPlanCell(UpdateCell, Some(1), None, Some(b), None)];
            PairwiseDistinct([a, b]) && ResolveAll(cells, [a, b], 1).Ok? &&
            !PairwiseDistinct(LiveQueries(ApplyQueries(ResolveAll(cells, [a, b], 1).value.ops, [a, b])))
  {
    hide NormalizeSql, Trim;
    var cells := [CanvasPlanCell(UpdateCell, Some(1), None, Some(b), None)];
    var op := Update(0, None, Some(b), None);
    var queries := [a, b];
    StartOfRun(cells, queries);
    assert ResolveOp(cells[0], |queries|) == Ok(Some(op));
    var r := ResolveAll(cells, queries, 1).value;
    assert r.ops == [] + [op];
    ApplySnoc([], op, queries);
    var live := ApplyQueries(r.ops, queries);
    assert live.slots == [Some(b), Some(b)] && live.created == [];
    var one := [Some(b)];
    assert one[..0] == [] && Kept(one) == [b];
    assert live.slots[..1] == one;
    assert LiveQueries(live) == [b, b];
    assert LiveQueries(live)[0] == LiveQueries(live)[1];
  }

  /** Nor is a rewriting seen by later creations: the new text of a cell can be created beside it. */
  lemma RewrittenCanBeCreated(a: string, b: string)
    requires NormalizeSql(a) != NormalizeSql(b) && Trim(b) == b && b != ""
    ensures var cells := [CanvasPlanCell(UpdateCell, Some(1), None, Some(b), None),
                          CanvasPlanCell(CreateCell, None, None, Some(b), None)];
            ResolveAll(cells, [a], 2).Ok? &&
            !PairwiseDistinct(LiveQueries(ApplyQueries(ResolveAll(cells, [a], 2).value.ops, [a])))
  {
    var cells := [CanvasPlanCell(UpdateCell, Some(1), None, Some(b), None),
                  CanvasPlanCell(CreateCell, None, None, Some(b), None)];
    var queries := [a];
    hide NormalizeSql, Trim;
    assert ResolveOp(cells[0], |queries|).Ok? && ResolveOp(cells[1], |queries|).Ok?;
    assert ResolveAll(cells, queries, 1).Ok?;
    assert RewriteTo(cells[0], 1, 0) == Some(b) && RewriteTo(cells[1], 1, 0) == None;
    assert TextAfter(cells, queries, 0, 1) == b;
    assert TextAfter(cells, queries, 0, 2) == b;
    assert Adds(cells, queries, 1, NormalizeSql(b));
    assert !TextsLeftNotAdded(cells, queries);
    assert PairwiseDistinct(queries);
    hide *;
    DeduplicationIsSound(cells, queries);
  }
}
