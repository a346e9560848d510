/**
 Packing charts into the dashboard grid: backend/src/dashboard/service.rs and dto.rs.
 Positions and sizes are 16-bit: an addition that overflows wraps around, as in a release
 build. The specification packs on unbounded numbers; the code computes it modulo 2^16.
 */
module GridPacker {
  import opened Wrappers
  import opened Sequences

  const GRID_COLUMN_COUNT := 12
  const MIN_CHART_WIDTH := 4
  const MIN_CHART_HEIGHT := 3
  const MAX_CHART_HEIGHT := 6
  const DEFAULT_CHART_WIDTH := 4
  const DEFAULT_CHART_HEIGHT := 3
  const MAX_CHARTS_PER_DASHBOARD := 30
  const U16_MODULUS := 0x1_0000

  type u16 = x: int | 0 <= x < U16_MODULUS

  type Id = nat

  datatype Layout = Layout(cellId: Id, x: u16, y: u16, width: u16, height: u16)
  {
    predicate Saturates()
    {
      y + height >= U16_MODULUS
    }

    /** Saturating addition */
    function Bottom(): u16
    {
      if y + height < U16_MODULUS then y + height else U16_MODULUS - 1
    }
  }

  datatype ChartRequest = ChartRequest(cellId: Id, width: Option<u16>, height: Option<u16>)

  datatype LayoutError = TooManyCharts

  function Distance(a: int, b: int): nat
  {
    if a < b then b - a else a - b
  }

  /** Within the limits, and no size within them is closer to the wanted one. */
  predicate Nearest(size: int, wanted: int, low: int, high: int)
  {
    low <= size <= high && forall u :: low <= u <= high ==> Distance(size, wanted) <= Distance(u, wanted)
  }

  function Clamp(value: Option<u16>, default: u16, low: u16, high: u16): u16
  {
    var v := if value.Some? then value.value else default;
    if v < low then low else if v > high then high else v
  }

  function Width(chart: ChartRequest): u16
  {
    Clamp(chart.width, DEFAULT_CHART_WIDTH, MIN_CHART_WIDTH, GRID_COLUMN_COUNT)
  }

  function Height(chart: ChartRequest): u16
  {
    Clamp(chart.height, DEFAULT_CHART_HEIGHT, MIN_CHART_HEIGHT, MAX_CHART_HEIGHT)
  }

  // ---------- Specification on unbounded rows ----------

  datatype Rect = Rect(x: nat, y: nat, width: nat, height: nat)

  datatype Cursor = Cursor(x: nat, y: nat, rowHeight: nat)
  {
    predicate Valid()
    {
      x <= GRID_COLUMN_COUNT && rowHeight <= MAX_CHART_HEIGHT
    }

    predicate StartsRow(chart: ChartRequest)
    {
      x + Width(chart) > GRID_COLUMN_COUNT
    }

    /** The rectangle lies further along this row, or below it. */
    predicate Precedes(r: Rect)
    {
      (r.y == y && r.x >= x) || r.y >= y + rowHeight
    }

    function Place(chart: ChartRequest): Rect
    {
      if StartsRow(chart) then Rect(0, y + rowHeight, Width(chart), Height(chart))
      else Rect(x, y, Width(chart), Height(chart))
    }

    function Next(chart: ChartRequest): (next: Cursor)
      ensures Valid() ==> next.Valid()
    {
      if StartsRow(chart) then Cursor(Width(chart), y + rowHeight, Height(chart))
      else Cursor(x + Width(chart), y, if Height(chart) > rowHeight then Height(chart) else rowHeight)
    }
  }

  function Pack(c: Cursor, charts: seq<ChartRequest>): (rects: seq<Rect>)
    ensures |rects| == |charts|
    decreases |charts|
  {
    if charts == [] then [] else [c.Place(charts[0])] + Pack(c.Next(charts[0]), charts[1..])
  }

  function After(c: Cursor, charts: seq<ChartRequest>): Cursor
    decreases |charts|
  {
    if charts == [] then c else After(c.Next(charts[0]), charts[1..])
  }

  function WrapRow(y: nat): u16
  {
    y % U16_MODULUS
  }

  function Wrap(c: Cursor): Cursor
  {
    c.(y := WrapRow(c.y))
  }

  function ToLayout(chart: ChartRequest, r: Rect): Layout
    requires r.x < U16_MODULUS && r.width < U16_MODULUS && r.height < U16_MODULUS
  {
    Layout(chart.cellId, r.x, WrapRow(r.y), r.width, r.height)
  }

  predicate InGrid(r: Rect)
  {
    MIN_CHART_WIDTH <= r.width && r.x + r.width <= GRID_COLUMN_COUNT &&
    MIN_CHART_HEIGHT <= r.height <= MAX_CHART_HEIGHT
  }

  /** `a` comes earlier in reading order and the two share no grid square. */
  predicate Before(a: Rect, b: Rect)
  {
    (a.y == b.y && a.x + a.width <= b.x) || a.y + a.height <= b.y
  }

  lemma {:induction false} PackInReadingOrder(c: Cursor, charts: seq<ChartRequest>)
    requires c.Valid()
    ensures forall i :: 0 <= i < |charts| ==> InGrid(Pack(c, charts)[i]) && c.Precedes(Pack(c, charts)[i])
    ensures forall i, j :: 0 <= i < j < |charts| ==> Before(Pack(c, charts)[i], Pack(c, charts)[j])
    decreases |charts|
  {
    if charts != [] {
      var next, rects := c.Next(charts[0]), Pack(c, charts);
      var tail := Pack(next, charts[1..]);
      PackInReadingOrder(next, charts[1..]);
      Cons(rects[0], tail);
      forall i | 0 < i < |rects|
        ensures InGrid(rects[i]) && c.Precedes(rects[i]) && Before(rects[0], rects[i])
      {
        assert rects[i] == tail[i - 1];
        assert next.Precedes(tail[i - 1]);
      }
      forall i, j | 0 < i < j < |rects|
        ensures Before(rects[i], rects[j])
      {
        assert Before(tail[i - 1], tail[j - 1]);
      }
    }
  }

  lemma {:induction false} PackRowsGrow(c: Cursor, charts: seq<ChartRequest>)
    requires c.Valid()
    ensures forall i :: 0 <= i < |charts| ==>
              c.y <= Pack(c, charts)[i].y <= c.y + c.rowHeight + MAX_CHART_HEIGHT * i
    decreases |charts|
  {
    if charts != [] {
      var next, rects := c.Next(charts[0]), Pack(c, charts);
      var tail := Pack(next, charts[1..]);
      PackRowsGrow(next, charts[1..]);
      forall i | 0 < i < |rects|
        ensures c.y <= rects[i].y <= c.y + c.rowHeight + MAX_CHART_HEIGHT * i
      {
        assert rects[i] == tail[i - 1];
      }
    }
  }

  /** The row in progress ends where one of its charts does, or where the cursor says. */
  predicate RowEndsAt(c: Cursor, rects: seq<Rect>, i: nat, y: nat, end: nat)
    requires i <= |rects|
  {
    (y == c.y && end == c.y + c.rowHeight) ||
    exists j :: 0 <= j < i && rects[j].y == y && rects[j].y + rects[j].height == end
  }

  /** Each chart stands right beside the one before if it fits there, and otherwise on a row right below. */
  lemma {:induction false} PackIsTight(c: Cursor, charts: seq<ChartRequest>, i: nat)
    requires 0 < i < |charts|
    ensures var rects := Pack(c, charts);
            var p, r := rects[i - 1], rects[i];
            if p.x + p.width + r.width <= GRID_COLUMN_COUNT then r.x == p.x + p.width && r.y == p.y
            else r.x == 0 && RowEndsAt(c, rects, i, p.y, r.y)
    decreases i
  {
    var next, rects := c.Next(charts[0]), Pack(c, charts);
    var tail := Pack(next, charts[1..]);
    assert rects == [c.Place(charts[0])] + tail;
    if i > 1 {
      PackIsTight(next, charts[1..], i - 1);
    }
    RowEndsLater(c, charts[0], tail, i - 1, rects[i - 1].y, rects[i].y);
  }

  lemma RowEndsLater(c: Cursor, chart: ChartRequest, tail: seq<Rect>, i: nat, y: nat, end: nat)
    requires i <= |tail|
    ensures RowEndsAt(c.Next(chart), tail, i, y, end) ==> RowEndsAt(c, [c.Place(chart)] + tail, i + 1, y, end)
  {
    var rects := [c.Place(chart)] + tail;
    if RowEndsAt(c.Next(chart), tail, i, y, end) {
      if j :| 0 <= j < i && tail[j].y == y && tail[j].y + tail[j].height == end {
        assert rects[j + 1] == tail[j];
      } else {
        assert rects[0] == c.Place(chart);
      }
    }
  }

  // ---------- The packer ----------

  function MaxBottom(layout: seq<Layout>): (m: u16)
    ensures forall l :: l in layout ==> l.Bottom() <= m
    ensures m != 0 ==> exists l :: l in layout && l.Bottom() == m
  {
    if layout == [] then 0
    else
      var m := MaxBottom(layout[1..]);
      if layout[0].Bottom() > m then layout[0].Bottom() else m
  }

  function Below(layout: seq<Layout>): Cursor
  {
    Cursor(0, MaxBottom(layout), 0)
  }

  class DashboardGridPacker {
    var x: u16
    var y: u16
    var rowHeight: u16

    function View(): Cursor
      reads this
    {
      Cursor(x, y, rowHeight)
    }

    constructor (layout: seq<Layout>)
      ensures View() == Below(layout)
    {
      x := 0;
      y := MaxBottom(layout);
      rowHeight := 0;
    }

    method Place(chart: ChartRequest) returns (placed: Layout)
      requires View().Valid()
      modifies this
      ensures View() == Wrap(old(View()).Next(chart)) && View().Valid()
      ensures placed == ToLayout(chart, old(View()).Place(chart))
    {
      var width, height := Width(chart), Height(chart);
      if x + width > GRID_COLUMN_COUNT {
        y := (y + rowHeight) % U16_MODULUS;
        x := 0;
        rowHeight := 0;
      }
      placed := Layout(chart.cellId, x, y, width, height);
      x := x + width;
      rowHeight := if rowHeight > height then rowHeight else height;
    }
  }

  function Placed(c: Cursor, charts: seq<ChartRequest>): (placed: seq<Layout>)
    requires c.Valid()
    ensures |placed| == |charts|
  {
    PackInReadingOrder(c, charts);
    var rects := Pack(c, charts);
    seq(|charts|, i requires 0 <= i < |charts| => assert InGrid(rects[i]); ToLayout(charts[i], rects[i]))
  }

  function Wanted(value: Option<int>, default: int): int
  {
    if value.Some? then value.value else default
  }

  lemma ClampIsNearest(value: Option<u16>, default: u16, low: u16, high: u16)
    requires low <= high
    ensures Nearest(Clamp(value, default, low, high), Wanted(value, default), low, high)
  {
  }

  lemma {:induction false} PackedSizes(c: Cursor, charts: seq<ChartRequest>, i: nat)
    requires i < |charts|
    ensures Pack(c, charts)[i].width == Width(charts[i]) && Pack(c, charts)[i].height == Height(charts[i])
    decreases i
  {
    if i > 0 {
      PackedSizes(c.Next(charts[0]), charts[1..], i - 1);
    }
  }

  /** Each chart has the size asked for, as far as the limits allow: 4 x 3 when nothing is said. */
  lemma PlacedAsRequested(c: Cursor, charts: seq<ChartRequest>, i: nat)
    requires c.Valid() && i < |charts|
    ensures var l := Placed(c, charts)[i];
            l.cellId == charts[i].cellId &&
            Nearest(l.width, Wanted(charts[i].width, 4), 4, 12) && Nearest(l.height, Wanted(charts[i].height, 3), 3, 6)
  {
    PackedSizes(c, charts, i);
    PackInReadingOrder(c, charts);
    ClampIsNearest(charts[i].width, DEFAULT_CHART_WIDTH, MIN_CHART_WIDTH, GRID_COLUMN_COUNT);
    ClampIsNearest(charts[i].height, DEFAULT_CHART_HEIGHT, MIN_CHART_HEIGHT, MAX_CHART_HEIGHT);
    hide Pack, Nearest, Clamp;
  }

  function Retained(layout: seq<Layout>, removed: seq<Id>): (kept: seq<Layout>)
    ensures forall l :: l in kept <==> l in layout && l.cellId !in removed
  {
    if layout == [] then []
    else
      (if layout[0].cellId in removed then [] else [layout[0]]) + Retained(layout[1..], removed)
  }

  function AppendCharts(layout: seq<Layout>, removed: seq<Id>, charts: seq<ChartRequest>):
    (r: Result<seq<Layout>, LayoutError>)
  {
    var kept := Retained(layout, removed);
    var all := kept + Placed(Below(kept), charts);
    if |all| > MAX_CHARTS_PER_DASHBOARD then Err(TooManyCharts) else Ok(all)
  }

  method AppendDashboardCharts(initial: seq<Layout>, removed: seq<Id>, charts: seq<ChartRequest>)
    returns (r: Result<seq<Layout>, LayoutError>)
    ensures r == AppendCharts(initial, removed, charts)
  {
    hide After, Placed, Wrap, ToLayout, MaxBottom, Retained, Pack;
    var layout := Retained(initial, removed);
    ghost var start := Below(layout);
    NothingPlaced(start, charts);
    ghost var placed := Placed(start, charts);
    ghost var kept := layout;
    var packer := new DashboardGridPacker(layout);
    for k := 0 to |charts|
      invariant packer.View() == Wrap(After(start, charts[..k])) && packer.View().Valid()
      invariant layout == kept + placed[..k]
    {
      PlacedAt(start, charts, k);
      var chart := packer.Place(charts[k]);
      layout := layout + [chart];
      assert placed[..k + 1] == placed[..k] + [placed[k]];
    }
    assert charts[..|charts|] == charts && placed[..|charts|] == placed;
    if |layout| > MAX_CHARTS_PER_DASHBOARD {
      return Err(TooManyCharts);
    }
    return Ok(layout);
  }

  lemma NothingPlaced(start: Cursor, charts: seq<ChartRequest>)
    requires start.y < U16_MODULUS
    ensures Wrap(After(start, charts[..0])) == start
  {
  }

  lemma {:induction false} PackAt(c: Cursor, charts: seq<ChartRequest>, k: nat)
    requires k < |charts|
    ensures Pack(c, charts)[k] == After(c, charts[..k]).Place(charts[k])
    decreases |charts|
  {
    if k > 0 {
      PackAt(c.Next(charts[0]), charts[1..], k - 1);
      assert charts[..k][1..] == charts[1..][..k - 1];
    }
  }

  lemma {:induction false} AfterSnoc(c: Cursor, charts: seq<ChartRequest>, chart: ChartRequest)
    ensures After(c, charts + [chart]) == After(c, charts).Next(chart)
    decreases |charts|
  {
    if charts == [] {
      Unit([chart]);
    } else {
      AppendTail(charts, [chart]);
      AfterSnoc(c.Next(charts[0]), charts[1..], chart);
    }
  }

  /** Placing the k-th chart on 16-bit fields. */
  lemma PlacedAt(start: Cursor, charts: seq<ChartRequest>, k: nat)
    requires start.Valid() && k < |charts|
    requires Wrap(After(start, charts[..k])).Valid()
    ensures var c := Wrap(After(start, charts[..k]));
            Wrap(c.Next(charts[k])) == Wrap(After(start, charts[..k + 1])) &&
            ToLayout(charts[k], c.Place(charts[k])) == Placed(start, charts)[k]
  {
    PackAt(start, charts, k);
    AfterSnoc(start, charts[..k], charts[k]);
    assert charts[..k + 1] == charts[..k] + [charts[k]];
    WrapCommutes(After(start, charts[..k]), charts[k]);
    hide After, Pack;
  }

  /** Rows are only ever added to, so wrapping at each step is wrapping at the end. */
  lemma WrapCommutes(c: Cursor, chart: ChartRequest)
    ensures Wrap(Wrap(c).Next(chart)) == Wrap(c.Next(chart))
    ensures WrapRow(Wrap(c).Place(chart).y) == WrapRow(c.Place(chart).y)
  {
    ModAdd(c.y, c.rowHeight);
  }

  lemma ModAdd(y: nat, h: nat)
    ensures (y % U16_MODULUS + h) % U16_MODULUS == (y + h) % U16_MODULUS
  {
    var q, r := y / U16_MODULUS, y % U16_MODULUS;
    assert y + h == q * U16_MODULUS + (r + h);
    var q', r' := (r + h) / U16_MODULUS, (r + h) % U16_MODULUS;
    assert y + h == (q + q') * U16_MODULUS + r';
  }

  // ---------- When the 16-bit rows are the real ones ----------

  predicate SameRect(l: Layout, r: Rect)
  {
    l.x == r.x && l.y == r.y && l.width == r.width && l.height == r.height
  }

  /** The last chart starts in a row that has a 16-bit number. */
  predicate LastRowFits(c: Cursor, charts: seq<ChartRequest>)
  {
    charts == [] || Pack(c, charts)[|charts| - 1].y < U16_MODULUS
  }

  /** It does when there are 6 rows left for each chart. */
  lemma RoomIsEnough(c: Cursor, charts: seq<ChartRequest>)
    requires c.Valid() && c.rowHeight == 0 && c.y + MAX_CHART_HEIGHT * |charts| < U16_MODULUS
    ensures LastRowFits(c, charts)
  {
    PackRowsGrow(c, charts);
  }

  lemma SameIffFits(chart: ChartRequest, r: Rect)
    requires InGrid(r)
    ensures SameRect(ToLayout(chart, r), r) <==> r.y < U16_MODULUS
  {
  }

  /** No addition overflows, for exactly the requests whose last row fits in 16 bits. */
  lemma PlacedExactlyWhenLastRowFits(c: Cursor, charts: seq<ChartRequest>)
    requires c.Valid()
    ensures var rects := Pack(c, charts);
            (forall i :: 0 <= i < |charts| ==> SameRect(Placed(c, charts)[i], rects[i])) <==> LastRowFits(c, charts)
  {
    var rects, placed := Pack(c, charts), Placed(c, charts);
    PackInReadingOrder(c, charts);
    hide Pack, ToLayout, SameRect;
    if charts != [] {
      var n := |charts| - 1;
      if rects[n].y < U16_MODULUS {
        forall i | 0 <= i < |charts|
          ensures SameRect(placed[i], rects[i])
        {
          assert i < n ==> Before(rects[i], rects[n]);
          SameIffFits(charts[i], rects[i]);
        }
      } else {
        SameIffFits(charts[n], rects[n]);
      }
    }
  }

  predicate Disjoint(a: Layout, b: Layout)
  {
    a.x + a.width <= b.x || b.x + b.width <= a.x || a.y + a.height <= b.y || b.y + b.height <= a.y
  }

  /** From position `from` on, no chart overlaps an earlier one, unless that one saturates. */
  predicate ClearFrom(all: seq<Layout>, from: nat)
  {
    forall i, j :: 0 <= i < j < |all| && from <= j && (i < from ==> !all[i].Saturates())
      ==> Disjoint(all[i], all[j])
  }

  lemma BelowIsClear(kept: seq<Layout>, placed: seq<Layout>, y: nat)
    requires forall l :: l in kept ==> l.Bottom() <= y
    requires forall l :: l in placed ==> l.y >= y
    requires ClearFrom(placed, 0)
    ensures ClearFrom(kept + placed, |kept|)
  {
    var all := kept + placed;
    forall i, j | 0 <= i < j < |all| && |kept| <= j && (i < |kept| ==> !all[i].Saturates())
      ensures Disjoint(all[i], all[j])
    {
      assert all[j] == placed[j - |kept|] && placed[j - |kept|] in placed;
      if i < |kept| {
        assert all[i] == kept[i] && kept[i] in kept;
      } else {
        assert all[i] == placed[i - |kept|];
      }
    }
  }

  /**
   Appending charts whose last row fits: what was not removed stays, new charts stay inside the grid, overlap
   neither each other nor any kept chart whose bottom does not saturate, and the cap holds.
   */
  lemma AppendedChartsDoNotOverlap(layout: seq<Layout>, removed: seq<Id>, charts: seq<ChartRequest>)
    requires AppendCharts(layout, removed, charts).Ok?
    requires LastRowFits(Below(Retained(layout, removed)), charts)
    ensures var kept := Retained(layout, removed);
            var all := AppendCharts(layout, removed, charts).value;
            |all| == |kept| + |charts| <= MAX_CHARTS_PER_DASHBOARD && kept <= all && ClearFrom(all, |kept|) &&
            forall i :: 0 <= i < |charts| ==>
              all[|kept| + i].cellId == charts[i].cellId &&
              all[|kept| + i].x + all[|kept| + i].width <= GRID_COLUMN_COUNT
  {
    hide Retained, Placed, Pack, MaxBottom, Disjoint, LastRowFits;
    var kept := Retained(layout, removed);
    NewChartsStayClear(Below(kept), charts);
    BelowIsClear(kept, Placed(Below(kept), charts), Below(kept).y);
  }

  lemma NewChartsStayClear(c: Cursor, charts: seq<ChartRequest>)
    requires c.Valid() && LastRowFits(c, charts)
    ensures forall i :: 0 <= i < |charts| ==>
              var l := Placed(c, charts)[i];
              l.cellId == charts[i].cellId && l.y >= c.y && l.x + l.width <= GRID_COLUMN_COUNT
    ensures ClearFrom(Placed(c, charts), 0)
  {
    var rects, placed := Pack(c, charts), Placed(c, charts);
    PackInReadingOrder(c, charts);
    PackRowsGrow(c, charts);
    PlacedExactlyWhenLastRowFits(c, charts);
    forall i | 0 <= i < |charts|
      ensures placed[i].y >= c.y && placed[i].x + placed[i].width <= GRID_COLUMN_COUNT
    {
      assert SameRect(placed[i], rects[i]) && InGrid(rects[i]);
    }
    forall i, j | 0 <= i < j < |charts|
      ensures Disjoint(placed[i], placed[j])
    {
      assert SameRect(placed[i], rects[i]) && SameRect(placed[j], rects[j]);
      assert Before(rects[i], rects[j]);
    }
  }

  // ---------- How many rows next-fit needs ----------

  function TotalWidth(charts: seq<ChartRequest>): nat
  {
    if charts == [] then 0 else Width(charts[0]) + TotalWidth(charts[1..])
  }

  function RowStarts(rects: seq<Rect>): set<nat>
  {
    set r | r in rects :: r.y
  }

  function NewRows(c: Cursor, charts: seq<ChartRequest>): nat
    decreases |charts|
  {
    if charts == [] then 0
    else (if c.StartsRow(charts[0]) then 1 else 0) + NewRows(c.Next(charts[0]), charts[1..])
  }

  lemma RowStartsCons(c: Cursor, charts: seq<ChartRequest>)
    requires charts != []
    ensures RowStarts(Pack(c, charts)) ==
            {c.Next(charts[0]).y} + RowStarts(Pack(c.Next(charts[0]), charts[1..]))
  {
    var first, tail := c.Place(charts[0]), Pack(c.Next(charts[0]), charts[1..]);
    assert Pack(c, charts) == [first] + tail && first.y == c.Next(charts[0]).y;
    hide Pack;
    StartsCons(first, tail);
  }

  lemma StartsCons(first: Rect, tail: seq<Rect>)
    ensures RowStarts([first] + tail) == {first.y} + RowStarts(tail)
  {
    assert forall r :: r in [first] + tail <==> r == first || r in tail;
  }

  lemma RowStartsBelow(c: Cursor, charts: seq<ChartRequest>, y: nat)
    requires c.Valid() && y < c.y
    ensures y !in RowStarts(Pack(c, charts))
  {
    PackInReadingOrder(c, charts);
  }

  lemma {:induction false} RowsAreNewRows(c: Cursor, charts: seq<ChartRequest>)
    requires c.Valid() && c.rowHeight >= MIN_CHART_HEIGHT
    ensures |{c.y} + RowStarts(Pack(c, charts))| == 1 + NewRows(c, charts)
    decreases |charts|
  {
    if charts == [] {
      assert {c.y} + RowStarts(Pack(c, charts)) == {c.y};
    } else {
      hide RowStarts, Pack;
      var next, rest := c.Next(charts[0]), charts[1..];
      var later := {next.y} + RowStarts(Pack(next, rest));
      RowsAreNewRows(next, rest);
      RowStartsCons(c, charts);
      if c.StartsRow(charts[0]) {
        RowStartsBelow(next, rest, c.y);
        assert c.y !in later;
      } else {
        assert {c.y} + later == later;
      }
    }
  }

  lemma {:induction false} NewRowsBound(c: Cursor, charts: seq<ChartRequest>)
    requires c.Valid() && c.x >= MIN_CHART_WIDTH
    ensures 13 * NewRows(c, charts) + 4 <= c.x + 2 * TotalWidth(charts)
    decreases |charts|
  {
    if charts != [] {
      NewRowsBound(c.Next(charts[0]), charts[1..]);
    }
  }

  /** The rows next-fit uses below any layout, against the total width it had to place. */
  lemma NextFitWaste(y: nat, charts: seq<ChartRequest>)
    requires charts != []
    ensures 13 * (|RowStarts(Pack(Cursor(0, y, 0), charts))| - 1) + 8 <= 2 * TotalWidth(charts)
  {
    var c := Cursor(0, y, 0);
    var next, rest := c.Next(charts[0]), charts[1..];
    NewRowsBound(next, rest);
    RowsAreNewRows(next, rest);
    RowStartsCons(c, charts);
  }

  function RowWidth(charts: seq<ChartRequest>, rows: seq<nat>, row: nat): nat
    requires |rows| == |charts|
  {
    if charts == [] then 0
    else (if rows[0] == row then Width(charts[0]) else 0) + RowWidth(charts[1..], rows[1..], row)
  }

  function WidthOfRows(charts: seq<ChartRequest>, rows: seq<nat>, m: nat): nat
    requires |rows| == |charts|
  {
    if m == 0 then 0 else RowWidth(charts, rows, m - 1) + WidthOfRows(charts, rows, m - 1)
  }

  lemma {:induction false} RowsOfNone(m: nat)
    ensures WidthOfRows([], [], m) == 0
  {
    if m > 0 {
      RowsOfNone(m - 1);
    }
  }

  lemma {:induction false} FirstChartInItsRow(charts: seq<ChartRequest>, rows: seq<nat>, m: nat)
    requires |rows| == |charts| > 0
    ensures WidthOfRows(charts, rows, m) ==
            (if rows[0] < m then Width(charts[0]) else 0) + WidthOfRows(charts[1..], rows[1..], m)
  {
    if m > 0 {
      FirstChartInItsRow(charts, rows, m - 1);
    }
  }

  lemma {:induction false} RowsHoldEverything(charts: seq<ChartRequest>, rows: seq<nat>, m: nat)
    requires |rows| == |charts| && forall i :: 0 <= i < |rows| ==> rows[i] < m
    ensures WidthOfRows(charts, rows, m) == TotalWidth(charts)
  {
    if charts == [] {
      RowsOfNone(m);
    } else {
      FirstChartInItsRow(charts, rows, m);
      RowsHoldEverything(charts[1..], rows[1..], m);
    }
  }

  lemma {:induction false} RowsAreNarrow(charts: seq<ChartRequest>, rows: seq<nat>, m: nat)
    requires |rows| == |charts|
    requires forall row :: 0 <= row < m ==> RowWidth(charts, rows, row) <= GRID_COLUMN_COUNT
    ensures WidthOfRows(charts, rows, m) <= GRID_COLUMN_COUNT * m
  {
    if m > 0 {
      RowsAreNarrow(charts, rows, m - 1);
    }
  }

  /** Next-fit never needs more than twice the rows of any other assignment of charts to rows. */
  lemma NextFitWithinTwiceAnyPacking(y: nat, charts: seq<ChartRequest>, rows: seq<nat>, m: nat)
    requires |rows| == |charts| && forall i :: 0 <= i < |rows| ==> rows[i] < m
    requires forall row :: 0 <= row < m ==> RowWidth(charts, rows, row) <= GRID_COLUMN_COUNT
    ensures |RowStarts(Pack(Cursor(0, y, 0), charts))| <= 2 * m
  {
    if charts == [] {
      assert RowStarts(Pack(Cursor(0, y, 0), charts)) == {};
    } else {
      NextFitWaste(y, charts);
      RowsHoldEverything(charts, rows, m);
      RowsAreNarrow(charts, rows, m);
    }
  }

  /**
   Where the last row does not fit, the new chart lands on a chart at the top of the dashboard:
   the second of two charts below row 65532 is placed at row 3, over the one that is there.
   */
  lemma WrappedChartOverlaps()
    ensures var layout := [Layout(0, 0, 3, 12, 3), Layout(1, 0, 65530, 12, 3)];
            var charts := [ChartRequest(2, Some(12), Some(6)), ChartRequest(3, Some(12), Some(6))];
            AppendCharts(layout, [], charts).Ok? &&
            var after := AppendCharts(layout, [], charts).value;
            |after| == 4 && after[3] == Layout(3, 0, 3, 12, 6) && !Disjoint(after[0], after[3])
  {
    var first, last := Layout(0, 0, 3, 12, 3), Layout(1, 0, 65530, 12, 3);
    var layout := [first, last];
    var charts := [ChartRequest(2, Some(12), Some(6)), ChartRequest(3, Some(12), Some(6))];
    assert layout[1..] == [last];
    var one := [last];
    assert one[1..] == [];
    assert Retained(one, []) == one && MaxBottom(one) == 65533;
    assert Retained(layout, []) == layout && MaxBottom(layout) == 65533;
    var c := Below(layout);
    assert charts[1..] == [charts[1]];
    var next := c.Next(charts[0]);
    assert next.Place(charts[1]) == Rect(0, 65539, 12, 6);
    var rest := [charts[1]];
    assert Pack(next, rest) == [next.Place(charts[1])];
    assert Pack(c, charts)[1] == next.Place(charts[1]);
  }
}
