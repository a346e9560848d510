/**
 Resolving an untrusted canvas plan into operations: backend/src/ai/dto.rs.
 */
module CanvasPlan {
  import opened Wrappers
  import opened Text
  import GridPacker
  import opened ChartQuery

  type i32 = x: int | -0x8000_0000 <= x < 0x8000_0000

  datatype ChartType = BarType | LineType | PieType | MetricType

  datatype AiPieChart = AiPieChart(category: string, value: string, aggregateFunction: AggregateFunction)

  datatype AiMetricChart = AiMetricChart(decimalPrecision: Option<i32>, suffix: Option<string>)

  datatype CanvasPlanChart = CanvasPlanChart(
    chartType: ChartType,
    axis: Option<AiAxisChart>,
    pie: Option<AiPieChart>,
    metric: Option<AiMetricChart>,
    gridWidth: Option<i32>,
    gridHeight: Option<i32>)

  datatype PlannedChartSpec =
    | Bar(axis: PlannedAxisChart)
    | Line(axis: PlannedAxisChart)
    | Pie(category: string, value: string, aggregateFunction: AggregateFunction)
    | Metric(decimalPrecision: nat, suffix: Option<string>)

  datatype PlannedChart = PlannedChart(spec: PlannedChartSpec, gridWidth: Option<i32>, gridHeight: Option<i32>)

  const DEFAULT_METRIC_DECIMAL_PRECISION := 2

  /** The nearest 16-bit size: none is closer to the requested one. */
  function ToGridUnits(value: Option<i32>): (units: Option<GridPacker.u16>)
    ensures units.Some? <==> value.Some?
    ensures value.Some? ==> GridPacker.Nearest(units.value, value.value, 0, GridPacker.U16_MODULUS - 1)
  {
    if value.None? then None
    else if value.value < 0 then Some(0)
    else if value.value >= GridPacker.U16_MODULUS then Some(GridPacker.U16_MODULUS - 1)
    else Some(value.value)
  }

  function PlannedPie(pie: Option<AiPieChart>): Result<PlannedChartSpec, PlanError>
  {
    if pie.None? then Err(MissingPie)
    else if NonBlank(pie.value.category).None? then Err(BlankCategory)
    else if NonBlank(pie.value.value).None? then Err(BlankValue)
    else Ok(Pie(NonBlank(pie.value.category).value, NonBlank(pie.value.value).value, pie.value.aggregateFunction))
  }

  function PlannedMetric(metric: Option<AiMetricChart>): Result<PlannedChartSpec, PlanError>
  {
    if metric.None? then Ok(Metric(DEFAULT_METRIC_DECIMAL_PRECISION, None))
    else
      var suffix := NonEmpty(metric.value.suffix);
      match metric.value.decimalPrecision
      case None => Ok(Metric(DEFAULT_METRIC_DECIMAL_PRECISION, suffix))
      case Some(precision) => if precision < 0 then Err(NegativePrecision) else Ok(Metric(precision, suffix))
  }

  function PlannedSpec(chart: CanvasPlanChart): Result<PlannedChartSpec, PlanError>
  {
    match chart.chartType
    case BarType => (match PlanAxis(chart.axis) case Ok(axis) => Ok(Bar(axis)) case Err(e) => Err(e))
    case LineType => (match PlanAxis(chart.axis) case Ok(axis) => Ok(Line(axis)) case Err(e) => Err(e))
    case PieType => PlannedPie(chart.pie)
    case MetricType => PlannedMetric(chart.metric)
  }

  datatype CanvasCellAction = CreateCell | UpdateCell | DeleteCell

  datatype CanvasPlanCell = CanvasPlanCell(
    action: CanvasCellAction,
    targetCellIndex: Option<i32>,
    title: Option<string>,
    sql: Option<string>,
    chart: Option<CanvasPlanChart>)

  datatype CanvasOp =
    | Create(title: Option<string>, sql: string, chart: Option<PlannedChart>)
    | Update(index: nat, title: Option<string>, newSql: Option<string>, chart: Option<PlannedChart>)
    | Delete(index: nat)

  /** A chart the plan got wrong, and the title of its cell. */
  datatype PlanFailure = PlanFailure(title: Option<string>, error: PlanError)

  function ResolveChart(chart: Option<CanvasPlanChart>, title: Option<string>):
      Result<Option<PlannedChart>, PlanFailure>
  {
    if chart.None? then Ok(None)
    else
      match PlannedSpec(chart.value)
      case Err(error) => Err(PlanFailure(title, error))
      case Ok(spec) => Ok(Some(PlannedChart(spec, chart.value.gridWidth, chart.value.gridHeight)))
  }

  /** The plan counts from 1; anything that names no cell is no index. */
  function ToZeroBased(index: Option<i32>, len: nat): (r: Option<nat>)
    ensures r.Some? <==> index.Some? && 1 <= index.value <= len
    ensures r.Some? ==> r.value + 1 == index.value
  {
    if index.None? || index.value < 1 || index.value > len then None else Some(index.value - 1)
  }

  function ResolveOp(cell: CanvasPlanCell, cellCount: nat): (r: Result<Option<CanvasOp>, PlanFailure>)
    ensures r.Ok? && r.value.Some? && !r.value.value.Create? ==> r.value.value.index < cellCount
  {
    match cell.action
    case CreateCell =>
      if NonEmpty(cell.sql).None? then Ok(None)
      else (
        match ResolveChart(cell.chart, cell.title)
        case Err(e) => Err(e)
        case Ok(chart) => Ok(Some(Create(NonEmpty(cell.title), NonEmpty(cell.sql).value, chart))))
    case UpdateCell =>
      if ToZeroBased(cell.targetCellIndex, cellCount).None? then Ok(None)
      else (
        match ResolveChart(cell.chart, cell.title)
        case Err(e) => Err(e)
        case Ok(chart) =>
          var title, sql := NonEmpty(cell.title), NonEmpty(cell.sql);
          if title.None? && sql.None? && chart.None? then Ok(None)
          else Ok(Some(Update(ToZeroBased(cell.targetCellIndex, cellCount).value, title, sql, chart))))
    case DeleteCell =>
      match ToZeroBased(cell.targetCellIndex, cellCount)
      case None => Ok(None)
      case Some(index) => Ok(Some(Delete(index)))
  }

  // ---------- The words of a query ----------

  /** `split_whitespace`: the maximal runs of other characters. */
  function Words(s: string): (words: seq<string>)
    ensures forall w :: w in words ==> w != "" && NoWhitespace(w)
    decreases |s|
  {
    if s == "" then []
    else if IsWhitespace(s[0]) then Words(s[1..])
    else
      var n := WordLength(s);
      [s[..n]] + Words(s[n..])
  }

  predicate NoWhitespace(s: string)
  {
    forall i :: 0 <= i < |s| ==> !IsWhitespace(s[i])
  }

  function WordLength(s: string): (n: nat)
    ensures n <= |s| && NoWhitespace(s[..n])
    ensures s != "" && !IsWhitespace(s[0]) ==> n > 0
    ensures n < |s| ==> IsWhitespace(s[n])
  {
    if s == "" || IsWhitespace(s[0]) then 0 else 1 + WordLength(s[1..])
  }

  function NormalizeSql(sql: string): string
  {
    AsciiLower(Join(Words(sql), " "))
  }

  function LowerAll(words: seq<string>): (r: seq<string>)
    ensures |r| == |words|
  {
    seq(|words|, i requires 0 <= i < |words| => AsciiLower(words[i]))
  }

  // ---------- What the words of a query are ----------

  /** A maximal run of characters that are no whitespace. */
  predicate IsRun(s: string, i: int, j: int)
  {
    0 <= i < j <= |s| && (forall k :: i <= k < j ==> !IsWhitespace(s[k])) &&
    (i > 0 ==> IsWhitespace(s[i - 1])) && (j < |s| ==> IsWhitespace(s[j]))
  }

  datatype Span = Span(start: int, end: int)

  /** The spans are all maximal runs that begin at n or later, in order, and the words what they cover. */
  ghost predicate RunsFrom(s: string, n: int, words: seq<string>, spans: seq<Span>)
  {
    && |spans| == |words|
    && (forall k :: 0 <= k < |spans| ==>
          n <= spans[k].start && IsRun(s, spans[k].start, spans[k].end) &&
          words[k] == s[spans[k].start..spans[k].end])
    && (forall k, m :: 0 <= k < m < |spans| ==> spans[k].end <= spans[m].start)
    && forall i, j :: n <= i && IsRun(s, i, j) ==> Span(i, j) in spans
  }

  /** The words are the maximal runs of the text, from left to right. */
  ghost predicate AreRuns(s: string, words: seq<string>)
  {
    exists spans :: RunsFrom(s, 0, words, spans)
  }

  lemma {:induction false} WordsHaveSpans(s: string, n: nat) returns (spans: seq<Span>)
    requires n <= |s| && (0 < n < |s| ==> IsWhitespace(s[n - 1]) || IsWhitespace(s[n]))
    ensures RunsFrom(s, n, Words(s[n..]), spans)
    decreases |s| - n
  {
    hide IsWhitespace, RunsFrom, IsRun;
    if n == |s| {
      spans := [];
      NoRunsLeft(s);
    } else if IsWhitespace(s[n]) {
      spans := WordsHaveSpans(s, n + 1);
      SkipSpace(s, n, spans);
    } else {
      var end := n + WordLength(s[n..]);
      FirstRun(s, n);
      spans := WordsHaveSpans(s, end);
      MoreRuns(s, n, end, Words(s[end..]), spans);
      spans := [Span(n, end)] + spans;
    }
  }

  lemma NoRunsLeft(s: string)
    ensures RunsFrom(s, |s|, Words(s[|s|..]), [])
  {
  }

  lemma SkipSpace(s: string, n: nat, spans: seq<Span>)
    requires n < |s| && IsWhitespace(s[n]) && RunsFrom(s, n + 1, Words(s[n + 1..]), spans)
    ensures RunsFrom(s, n, Words(s[n..]), spans)
  {
    assert s[n..][1..] == s[n + 1..];
    forall i, j | n <= i && IsRun(s, i, j)
      ensures n + 1 <= i
    {
    }
  }

  lemma FirstRun(s: string, n: nat)
    requires n < |s| && !IsWhitespace(s[n]) && (n > 0 ==> IsWhitespace(s[n - 1]))
    ensures var end := n + WordLength(s[n..]);
            n < end <= |s| && IsRun(s, n, end) && (end < |s| ==> IsWhitespace(s[end])) &&
            Words(s[n..]) == [s[n..end]] + Words(s[end..])
  {
    var length := WordLength(s[n..]);
    assert forall k :: n <= k < n + length ==> s[k] == s[n..][..length][k - n];
    assert length < |s| - n ==> s[n..][length] == s[n + length];
    assert s[n..][length..] == s[n + length..] && s[n..][..length] == s[n..n + length];
    hide IsWhitespace;
  }

  lemma MoreRuns(s: string, n: nat, end: nat, words: seq<string>, spans: seq<Span>)
    requires IsRun(s, n, end) && RunsFrom(s, end, words, spans)
    ensures RunsFrom(s, n, [s[n..end]] + words, [Span(n, end)] + spans)
  {
    hide IsRun;
    var all := [Span(n, end)] + spans;
    RunBounds(s, n, end);
    forall i, j | n <= i && IsRun(s, i, j)
      ensures Span(i, j) in all
    {
      if i < end {
        OnlyRun(s, n, end, i, j);
        assert all[0] == Span(i, j);
      }
    }
  }

  lemma RunBounds(s: string, i: int, j: int)
    requires IsRun(s, i, j)
    ensures 0 <= i < j <= |s|
  {
  }

  lemma OnlyRun(s: string, n: nat, end: nat, i: int, j: int)
    requires IsRun(s, n, end) && IsRun(s, i, j) && n <= i < end
    ensures i == n && j == end
  {
    hide IsWhitespace;
  }

  /** `Words` are exactly the runs of the text. */
  lemma WordsAreRuns(s: string)
    ensures AreRuns(s, Words(s))
  {
    var spans := WordsHaveSpans(s, 0);
    assert s[0..] == s;
  }

  /** And a text has only one list of runs. */
  lemma RunsAreWords(s: string, words: seq<string>)
    requires AreRuns(s, words)
    ensures words == Words(s)
  {
    var a :| RunsFrom(s, 0, words, a);
    var b := WordsHaveSpans(s, 0);
    assert s[0..] == s;
    hide IsRun;
    if |a| < |b| {
      NoMoreSpans(s, words, a, Words(s), b);
    } else if |b| < |a| {
      NoMoreSpans(s, Words(s), b, words, a);
    } else {
      SpansAgree(s, words, a, Words(s), b, |a|);
      assert a[..|a|] == a && b[..|b|] == b;
    }
  }

  lemma SpansIncrease(s: string, words: seq<string>, spans: seq<Span>, k: nat, m: nat)
    requires RunsFrom(s, 0, words, spans) && k <= m < |spans|
    ensures spans[k].start <= spans[m].start
    ensures spans[k].start == spans[m].start ==> k == m
  {
    assert IsRun(s, spans[k].start, spans[k].end);
  }

  lemma {:induction false} SpansAgree(
    s: string, v: seq<string>, a: seq<Span>, w: seq<string>, b: seq<Span>, n: nat)
    requires RunsFrom(s, 0, v, a) && RunsFrom(s, 0, w, b) && n <= |a| && n <= |b|
    ensures a[..n] == b[..n]
  {
    hide RunsFrom;
    if n > 0 {
      SpansAgree(s, v, a, w, b, n - 1);
      var k := NotBefore(s, v, a, w, b, n - 1);
      var m := NotBefore(s, w, b, v, a, n - 1);
      SpansIncrease(s, w, b, n - 1, k);
      SpansIncrease(s, v, a, n - 1, m);
      assert a[..n] == a[..n - 1] + [a[n - 1]] && b[..n] == b[..n - 1] + [b[n - 1]];
    }
  }

  /** Where a run of the one list stands in the other, when they agree up to it. */
  lemma NotBefore(s: string, v: seq<string>, a: seq<Span>, w: seq<string>, b: seq<Span>, n: nat) returns (k: nat)
    requires RunsFrom(s, 0, v, a) && RunsFrom(s, 0, w, b) && n < |a| && n <= |b| && a[..n] == b[..n]
    ensures n <= k < |b| && b[k] == a[n]
  {
    assert IsRun(s, a[n].start, a[n].end) && a[n] == Span(a[n].start, a[n].end);
    k :| 0 <= k < |b| && b[k] == a[n];
    if k < n {
      assert b[k] == b[..n][k] == a[..n][k];
      SpansIncrease(s, v, a, k, n);
    }
  }

  lemma NoMoreSpans(s: string, v: seq<string>, a: seq<Span>, w: seq<string>, b: seq<Span>)
    requires RunsFrom(s, 0, v, a) && RunsFrom(s, 0, w, b)
    ensures |b| <= |a|
  {
    if |a| < |b| {
      SpansAgree(s, v, a, w, b, |a|);
      var k := NotBefore(s, w, b, v, a, |a|);
    }
  }

  // ---------- When two queries are the same ----------

  predicate SameLetter(c: char, d: char)
  {
    c == d || ('A' <= c <= 'Z' && d as int == c as int + 32) || ('A' <= d <= 'Z' && c as int == d as int + 32)
  }

  /** Equal but for the case of ASCII letters. */
  predicate SameButForCase(v: string, w: string)
  {
    |v| == |w| && forall i :: 0 <= i < |v| ==> SameLetter(v[i], w[i])
  }

  lemma LowerTellsLetters(v: string, w: string)
    ensures AsciiLower(v) == AsciiLower(w) <==> SameButForCase(v, w)
  {
    LowerLetters(v);
    LowerLetters(w);
    hide AsciiLower;
    var a, b := AsciiLower(v), AsciiLower(w);
    if |v| == |w| {
      forall i | 0 <= i < |v|
        ensures a[i] == b[i] <==> SameLetter(v[i], w[i])
      {
        assert a[i] == b[i] <==> a[i] as int == b[i] as int;
      }
    }
  }

  lemma LowerConcat(a: string, b: string)
    ensures AsciiLower(a + b) == AsciiLower(a) + AsciiLower(b)
  {
  }

  lemma {:induction false} LowerJoin(words: seq<string>)
    ensures AsciiLower(Join(words, " ")) == Join(LowerAll(words), " ")
  {
    var lowered := LowerAll(words);
    if words == [] {
    } else if |words| == 1 {
    } else {
      assert LowerAll(words[1..]) == lowered[1..];
      LowerJoin(words[1..]);
      LowerConcat(words[0] + " ", Join(words[1..], " "));
      LowerConcat(words[0], " ");
      assert AsciiLower(" ") == " ";
    }
  }

  predicate AreWords(words: seq<string>)
  {
    forall i :: 0 <= i < |words| ==> words[i] != "" && ' ' !in words[i]
  }

  lemma {:induction false} JoinIsInjective(a: seq<string>, b: seq<string>)
    requires AreWords(a) && AreWords(b) && Join(a, " ") == Join(b, " ")
    ensures a == b
    decreases |a|
  {
    if a != [] && b != [] {
      var x, y := After(a), After(b);
      assert Join(a, " ") == a[0] + x && Join(b, " ") == b[0] + y;
      SameFirstWord(a[0], x, b[0], y);
      if |a| > 1 {
        assert x[1..] == Join(a[1..], " ") && y[1..] == Join(b[1..], " ");
        JoinIsInjective(a[1..], b[1..]);
      }
      assert a == [a[0]] + a[1..] && b == [b[0]] + b[1..];
    }
  }

  /** What follows the first word. */
  function After(words: seq<string>): string
    requires words != []
  {
    if |words| == 1 then "" else " " + Join(words[1..], " ")
  }

  lemma SameFirstWord(v: string, x: string, w: string, y: string)
    requires ' ' !in v && ' ' !in w && v + x == w + y
    requires (x != "" ==> x[0] == ' ') && (y != "" ==> y[0] == ' ')
    ensures v == w && x == y
  {
    var all := v + x;
    assert forall i :: 0 <= i < |v| ==> all[i] == v[i];
    assert forall i :: 0 <= i < |w| ==> all[i] == w[i];
    assert x != "" ==> all[|v|] == ' ';
    assert y != "" ==> all[|w|] == ' ';
    assert |v| == |w|;
    assert v == all[..|v|] && w == all[..|v|];
    assert x == all[|v|..] && y == all[|v|..];
  }

  /**
   Two queries are the same to the planner exactly when their runs of other characters than
   whitespace, taken one by one, differ in nothing but the case of ASCII letters.
   */
  lemma SameQueryIffSameRuns(a: string, b: string, v: seq<string>, w: seq<string>)
    requires AreRuns(a, v) && AreRuns(b, w)
    ensures NormalizeSql(a) == NormalizeSql(b) <==>
            |v| == |w| && forall k :: 0 <= k < |v| ==> SameButForCase(v[k], w[k])
  {
    RunsAreWords(a, v);
    RunsAreWords(b, w);
    SameQueryIffSameWords(a, b);
    hide *;
    if |v| == |w| {
      forall k | 0 <= k < |v|
        ensures LowerAll(v)[k] == LowerAll(w)[k] <==> SameButForCase(v[k], w[k])
      {
        LowerAllAt(v, k);
        LowerAllAt(w, k);
        LowerTellsLetters(v[k], w[k]);
      }
    }
  }

  lemma LowerAllAt(words: seq<string>, k: nat)
    requires k < |words|
    ensures LowerAll(words)[k] == AsciiLower(words[k])
  {
  }

  lemma SameQueryIffSameWords(a: string, b: string)
    ensures NormalizeSql(a) == NormalizeSql(b) <==> LowerAll(Words(a)) == LowerAll(Words(b))
  {
    LowerJoin(Words(a));
    LowerJoin(Words(b));
    if NormalizeSql(a) == NormalizeSql(b) {
      LoweredAreWords(Words(a));
      LoweredAreWords(Words(b));
      JoinIsInjective(LowerAll(Words(a)), LowerAll(Words(b)));
    }
  }

  lemma LoweredAreWords(words: seq<string>)
    requires forall w :: w in words ==> w != "" && NoWhitespace(w)
    ensures AreWords(LowerAll(words))
  {
    forall i | 0 <= i < |words|
      ensures words[i] != "" && ' ' !in AsciiLower(words[i])
    {
      assert words[i] in words;
      assert forall k :: 0 <= k < |words[i]| ==> words[i][k] != ' ';
    }
  }

  // ---------- Resolving the whole plan ----------

  /** The queries taken to be in the canvas, and the operations so far. */
  datatype Resolved = Resolved(present: set<string>, ops: seq<CanvasOp>)

  function Keys(queries: seq<string>): set<string>
  {
    set q | q in queries :: NormalizeSql(q)
  }

  function Accept(r: Resolved, op: CanvasOp, queries: seq<string>): Resolved
  {
    match op
    case Create(_, sql, _) =>
      if NormalizeSql(sql) in r.present then r else Resolved(r.present + {NormalizeSql(sql)}, r.ops + [op])
    case Delete(index) =>
      Resolved(if index < |queries| then r.present - {NormalizeSql(queries[index])} else r.present, r.ops + [op])
    case Update(_, _, _, _) => r.(ops := r.ops + [op])
  }

  /** The first n cells of the plan against a canvas with these queries (none: a new canvas). */
  function ResolveAll(cells: seq<CanvasPlanCell>, queries: seq<string>, n: nat): Result<Resolved, PlanFailure>
    requires n <= |cells|
  {
    if n == 0 then Ok(Resolved(Keys(queries), []))
    else
      match ResolveAll(cells, queries, n - 1)
      case Err(e) => Err(e)
      case Ok(r) =>
        match ResolveOp(cells[n - 1], |queries|)
        case Err(e) => Err(e)
        case Ok(None) => Ok(r)
        case Ok(Some(op)) => Ok(Accept(r, op, queries))
  }

  lemma {:induction false} ErrorStays(cells: seq<CanvasPlanCell>, queries: seq<string>, n: nat, m: nat)
    requires n <= m <= |cells| && ResolveAll(cells, queries, n).Err?
    ensures ResolveAll(cells, queries, m) == ResolveAll(cells, queries, n)
    decreases m
  {
    hide ResolveOp, Accept, Keys;
    if n < m {
      ErrorStays(cells, queries, n, m - 1);
    }
  }

  method ResolveOps(cells: seq<CanvasPlanCell>, target: Option<seq<string>>)
      returns (r: Result<seq<CanvasOp>, PlanFailure>)
    ensures var queries := if target.Some? then target.value else [];
            var resolved := ResolveAll(cells, queries, |cells|);
            r == if resolved.Ok? then Ok(resolved.value.ops) else Err(resolved.error)
  {
    hide ResolveOp, NormalizeSql, Keys;
    var queries: seq<string> := if target.Some? then target.value else [];
    var present := Keys(queries);
    var ops: seq<CanvasOp> := [];
    for k := 0 to |cells|
      invariant ResolveAll(cells, queries, k) == Ok(Resolved(present, ops))
    {
      var op := ResolveOp(cells[k], |queries|);
      if op.Err? {
        ErrorStays(cells, queries, k + 1, |cells|);
        return Err(op.error);
      }
      if op.value.None? {
        continue;
      }
      match op.value.value
      case Create(_, sql, _) =>
        var key := NormalizeSql(sql);
        if key in present {
          continue;
        }
        present := present + {key};
        ops := ops + [op.value.value];
      case Delete(index) =>
        if index < |queries| {
          present := present - {NormalizeSql(queries[index])};
        }
        ops := ops + [op.value.value];
      case Update(_, _, _, _) =>
        ops := ops + [op.value.value];
    }
    return Ok(ops);
  }
}
