/** Moving a cell within its notebook: `reorder_cell` in backend/src/cell/service.rs. */
module CellReorder {
  import opened Wrappers

  type Id = nat

  datatype Cell = Cell(id: Id, displayOrder: int, name: string, content: string)

  datatype Movement = Up | Down | Top | Bottom

  datatype ReorderError = CellNotFound | DisplayOrderOutOfBounds

  ghost predicate Distinct(cells: seq<Cell>)
  {
    forall i, j :: 0 <= i < j < |cells| ==> cells[i].id != cells[j].id
  }

  ghost predicate Ascending(cells: seq<Cell>)
  {
    forall i, j :: 0 <= i < j < |cells| ==> cells[i].displayOrder <= cells[j].displayOrder
  }

  /** The cells are exactly the rows. */
  ghost predicate Stores(rows: map<Id, Cell>, cells: seq<Cell>)
  {
    && (forall i :: 0 <= i < |cells| ==> cells[i].id in rows && rows[cells[i].id] == cells[i])
    && (forall id :: id in rows ==> Occurs(id, cells))
  }

  ghost predicate Occurs(id: Id, cells: seq<Cell>)
  {
    exists i :: 0 <= i < |cells| && cells[i].id == id
  }

  /** What the ordered query may answer: every row once, by ascending display order. */
  ghost predicate Listing(rows: map<Id, Cell>, cells: seq<Cell>)
  {
    Stores(rows, cells) && Distinct(cells) && Ascending(cells)
  }

  function Target(current: int, len: nat, movement: Movement): int
  {
    match movement
    case Up => if current > 1 then current - 1 else current
    case Down => if current < len then current + 1 else current
    case Top => 1
    case Bottom => len
  }

  function Without(cells: seq<Cell>, k: nat): (rest: seq<Cell>)
    requires k < |cells|
    ensures |rest| == |cells| - 1
  {
    cells[..k] + cells[k + 1..]
  }

  function Inserted(cells: seq<Cell>, k: nat, cell: Cell): (more: seq<Cell>)
    requires k <= |cells|
    ensures |more| == |cells| + 1
  {
    cells[..k] + [cell] + cells[k..]
  }

  function Move(cells: seq<Cell>, from: nat, to: nat): (moved: seq<Cell>)
    requires from < |cells| && to < |cells|
    ensures |moved| == |cells|
  {
    Inserted(Without(cells, from), to, cells[from])
  }

  function Renumbered(cells: seq<Cell>): (r: seq<Cell>)
    ensures |r| == |cells|
    ensures forall i :: 0 <= i < |cells| ==> r[i] == cells[i].(displayOrder := i + 1)
  {
    seq(|cells|, i requires 0 <= i < |cells| => cells[i].(displayOrder := i + 1))
  }

  /** The cells in their order after a reorder of the one with display order `current`. */
  function Reordered(cells: seq<Cell>, current: int, movement: Movement): (r: seq<Cell>)
    requires 1 <= current <= |cells|
    ensures |r| == |cells|
  {
    Renumbered(Move(cells, current - 1, Target(current, |cells|, movement) - 1))
  }

  class Notebook {
    var rows: map<Id, Cell>

    constructor (rows: map<Id, Cell>)
      ensures this.rows == rows
    {
      this.rows := rows;
    }

    method ReorderCell(id: Id, movement: Movement, listing: seq<Cell>) returns (r: Result<Cell, ReorderError>)
      requires Listing(rows, listing)
      modifies this
      ensures id !in old(rows) <==> r == Err(CellNotFound)
      ensures id in old(rows) ==>
                (r == Err(DisplayOrderOutOfBounds) <==> !(1 <= old(rows)[id].displayOrder <= |listing|))
      ensures r.Err? ==> rows == old(rows)
      ensures r.Ok? ==> Stores(rows, Reordered(listing, old(rows)[id].displayOrder, movement))
      ensures r.Ok? ==> id in rows && r.value == rows[id]
    {
      hide Stores, Distinct, Ascending, Inserted, Without;
      if id !in rows {
        return Err(CellNotFound);
      }
      var cell := rows[id];
      var orderedCells := listing;
      var len := |orderedCells|;
      var currentIndex := cell.displayOrder;
      if currentIndex < 1 || currentIndex > len {
        return Err(DisplayOrderOutOfBounds);
      }
      var newIndex := Target(currentIndex, len, movement);
      ghost var moved := Move(listing, currentIndex - 1, newIndex - 1);
      MoveIsSame(listing, currentIndex - 1);
      MovedFromListing(rows, listing, currentIndex - 1, newIndex - 1);
      if newIndex != currentIndex {
        var fromPos, toPos := currentIndex - 1, newIndex - 1;
        orderedCells := Inserted(Without(orderedCells, fromPos), toPos, orderedCells[fromPos]);
      }
      assert orderedCells == moved;
      var responseCell := Renumber(id, orderedCells);
      return Ok(responseCell);
    }

    /** The loop of `reorder_cell` that stores each display order that changed. */
    method Renumber(id: Id, orderedCells: seq<Cell>) returns (responseCell: Cell)
      requires Stores(rows, orderedCells) && Distinct(orderedCells) && id in rows
      modifies this
      ensures Stores(rows, Renumbered(orderedCells))
      ensures id in rows && responseCell == rows[id]
    {
      ghost var target := Renumbered(orderedCells);
      ghost var keys := rows.Keys;
      responseCell := rows[id];
      for i := 0 to |orderedCells|
        invariant rows.Keys == keys
        invariant forall j :: 0 <= j < i ==> rows[orderedCells[j].id] == target[j]
        invariant forall j :: i <= j < |orderedCells| ==> rows[orderedCells[j].id] == orderedCells[j]
        invariant responseCell == rows[id]
      {
        var c := orderedCells[i];
        var newOrder := i + 1;
        assert forall j :: 0 <= j < |orderedCells| && j != i ==> orderedCells[j].id != c.id;
        if c.displayOrder != newOrder {
          var updated := rows[c.id].(displayOrder := newOrder);
          rows := rows[c.id := updated];
          if c.id == id {
            responseCell := updated;
          }
        }
      }
      SameIds(rows, orderedCells, target);
    }
  }

  lemma SameIds(rows: map<Id, Cell>, a: seq<Cell>, b: seq<Cell>)
    requires |a| == |b| && forall i :: 0 <= i < |a| ==> a[i].id == b[i].id
    ensures forall id :: Occurs(id, a) <==> Occurs(id, b)
  {
    forall id
      ensures Occurs(id, a) <==> Occurs(id, b)
    {
      if i :| 0 <= i < |a| && a[i].id == id {
        assert b[i].id == id;
      }
      if i :| 0 <= i < |b| && b[i].id == id {
        assert a[i].id == id;
      }
    }
  }

  lemma MoveIsSame(cells: seq<Cell>, k: nat)
    requires k < |cells|
    ensures Move(cells, k, k) == cells
  {
  }

  /** A moved listing holds the same rows, each once. */
  lemma MovedFromListing(rows: map<Id, Cell>, cells: seq<Cell>, from: nat, to: nat)
    requires Stores(rows, cells) && Distinct(cells) && from < |cells| && to < |cells|
    ensures Stores(rows, Move(cells, from, to)) && Distinct(Move(cells, from, to))
  {
    var moved := Move(cells, from, to);
    forall i | 0 <= i < |moved|
      ensures 0 <= Origin(from, to, i) < |cells| && moved[i] == cells[Origin(from, to, i)]
    {
      MovedAt(cells, from, to, i);
    }
    hide Move;
    MovedIsStored(rows, cells, from, to, moved);
  }

  lemma MovedIsStored(rows: map<Id, Cell>, cells: seq<Cell>, from: nat, to: nat, moved: seq<Cell>)
    requires Stores(rows, cells) && Distinct(cells) && from < |cells| && to < |cells| && |moved| == |cells|
    requires forall i :: 0 <= i < |moved| ==>
               0 <= Origin(from, to, i) < |cells| && moved[i] == cells[Origin(from, to, i)]
    ensures Stores(rows, moved) && Distinct(moved)
  {
    forall id | id in rows
      ensures Occurs(id, moved)
    {
      assert Occurs(id, cells);
      var k :| 0 <= k < |cells| && cells[k].id == id;
      assert Origin(from, to, Origin(to, from, k)) == k;
      assert moved[Origin(to, from, k)].id == id;
    }
    forall i, j | 0 <= i < j < |moved|
      ensures moved[i].id != moved[j].id
    {
      assert Origin(from, to, i) != Origin(from, to, j);
    }
    hide Origin, Occurs;
  }

  /** Where the cell at position i after a move was before it. */
  function Origin(from: nat, to: nat, i: nat): int
  {
    if i == to then from
    else if from <= i < to then i + 1
    else if to < i <= from then i - 1
    else i
  }

  lemma MovedAt(cells: seq<Cell>, from: nat, to: nat, i: nat)
    requires from < |cells| && to < |cells| && i < |cells|
    ensures 0 <= Origin(from, to, i) < |cells| && Move(cells, from, to)[i] == cells[Origin(from, to, i)]
  {
    var rest := Without(cells, from);
    assert i != to ==> Move(cells, from, to)[i] == rest[if i < to then i else i - 1];
  }

  /** The moved cell lands at its target, and the rest keep their relative order. */
  lemma OthersKeepTheirOrder(cells: seq<Cell>, from: nat, to: nat)
    requires from < |cells| && to < |cells|
    ensures Move(cells, from, to)[to] == cells[from]
    ensures Without(Move(cells, from, to), to) == Without(cells, from)
  {
    var rest, moved := Without(cells, from), Move(cells, from, to);
    assert moved[..to] == rest[..to] && moved[to + 1..] == rest[to..];
    assert rest[..to] + rest[to..] == rest;
  }

  lemma MoveBack(cells: seq<Cell>, from: nat, to: nat)
    requires from < |cells| && to < |cells|
    ensures Move(Move(cells, from, to), to, from) == cells
  {
    OthersKeepTheirOrder(cells, from, to);
    var rest := Without(cells, from);
    assert rest[..from] + [cells[from]] + rest[from..] == cells;
  }

  /**
   Every successful reorder leaves the same rows, but for their numbers, which run from 1 to
   n without a gap: the result is a listing again.
   */
  lemma ReorderIsPermutation(rows: map<Id, Cell>, listing: seq<Cell>, current: int, movement: Movement,
      after: map<Id, Cell>)
    requires Listing(rows, listing) && 1 <= current <= |listing|
    requires Stores(after, Reordered(listing, current, movement))
    ensures after.Keys == rows.Keys
    ensures forall id :: id in rows ==> after[id] == rows[id].(displayOrder := after[id].displayOrder)
    ensures NumberedBy(after, Reordered(listing, current, movement))
  {
    hide Move, Renumbered, Stores, Distinct, Ascending, NumberedBy;
    var to := Target(current, |listing|, movement) - 1;
    MovedFromListing(rows, listing, current - 1, to);
    RenumberKeepsRows(rows, Move(listing, current - 1, to), after);
  }

  lemma RenumberKeepsRows(rows: map<Id, Cell>, cells: seq<Cell>, after: map<Id, Cell>)
    requires Stores(rows, cells) && Distinct(cells) && Stores(after, Renumbered(cells))
    ensures after.Keys == rows.Keys
    ensures forall id :: id in rows ==> after[id] == rows[id].(displayOrder := after[id].displayOrder)
    ensures NumberedBy(after, Renumbered(cells))
  {
    var result := Renumbered(cells);
    SameIds(rows, cells, result);
    forall id
      ensures id in after <==> id in rows
      ensures id in rows ==> after[id] == rows[id].(displayOrder := after[id].displayOrder)
    {
      assert id in after ==> Occurs(id, result);
      if id in rows {
        assert Occurs(id, cells);
        var i :| 0 <= i < |cells| && cells[i].id == id;
        assert result[i].id == id;
      }
    }
  }

  /** The rows are numbered 1 to n, in the order of the listing. */
  ghost predicate NumberedBy(rows: map<Id, Cell>, cells: seq<Cell>)
  {
    Listing(rows, cells) && forall i :: 0 <= i < |cells| ==> cells[i].displayOrder == i + 1
  }

  /**
   The cell that moves is the one asked for exactly when it stands in the listing where its
   display order says.
   */
  lemma RequestedCellMoves(rows: map<Id, Cell>, listing: seq<Cell>, id: Id, movement: Movement)
    requires Listing(rows, listing) && id in rows && 1 <= rows[id].displayOrder <= |listing|
    ensures var current := rows[id].displayOrder;
            var target := Target(current, |listing|, movement);
            var result := Reordered(listing, current, movement);
            (result[target - 1].id == id <==> listing[current - 1].id == id) &&
            (NumberedBy(rows, listing) ==> result[target - 1].id == id)
  {
    var current := rows[id].displayOrder;
    OthersKeepTheirOrder(listing, current - 1, Target(current, |listing|, movement) - 1);
    if NumberedBy(rows, listing) {
      assert Occurs(id, listing);
      var i :| 0 <= i < |listing| && listing[i].id == id;
    }
  }

  /** Where the cell at place `was` of n goes. */
  predicate GoesTo(movement: Movement, was: int, n: nat, goal: int)
  {
    match movement
    case Up => goal == was - 1 || (was == 1 && goal == 1)
    case Down => goal == was + 1 || (was == n && goal == n)
    case Top => goal == 1
    case Bottom => goal == n
  }

  /** The place of another cell when one goes from `was` to `goal`: those in between give way by one. */
  function GivesWay(place: int, was: int, goal: int): int
  {
    if was < place <= goal then place - 1 else if goal <= place < was then place + 1 else place
  }

  /**
   After a reorder the cell that stood at the place `current` has the number the movement says, from 1
   to n, and every other cell its own place, or the next one if the cell passed it.
   */
  lemma NumbersAfter(rows: map<Id, Cell>, listing: seq<Cell>, current: int, movement: Movement, after: map<Id, Cell>)
    requires Listing(rows, listing) && 1 <= current <= |listing|
    requires Stores(after, Reordered(listing, current, movement))
    ensures exists goal :: 1 <= goal <= |listing| && GoesTo(movement, current, |listing|, goal) &&
              forall i :: 0 <= i < |listing| ==>
                listing[i].id in after &&
                after[listing[i].id].displayOrder ==
                  if i + 1 == current then goal else GivesWay(i + 1, current, goal)
  {
    var goal := Target(current, |listing|, movement);
    assert 1 <= goal <= |listing| && GoesTo(movement, current, |listing|, goal);
    hide Stores, Reordered, Target, GivesWay, GoesTo;
    forall i | 0 <= i < |listing|
      ensures listing[i].id in after
      ensures after[listing[i].id].displayOrder == if i + 1 == current then goal else GivesWay(i + 1, current, goal)
    {
      NumberAfter(listing, current, movement, after, i);
    }
  }

  lemma PlaceAfter(current: int, goal: int, n: nat, i: nat) returns (place: nat)
    requires 1 <= current <= n && 1 <= goal <= n && i < n
    ensures place < n && Origin(current - 1, goal - 1, place) == i
    ensures place + 1 == if i + 1 == current then goal else GivesWay(i + 1, current, goal)
  {
    place := (if i + 1 == current then goal else GivesWay(i + 1, current, goal)) - 1;
  }

  lemma NumberAfter(listing: seq<Cell>, current: int, movement: Movement, after: map<Id, Cell>, i: nat)
    requires 1 <= current <= |listing| && i < |listing|
    requires Stores(after, Reordered(listing, current, movement))
    ensures var goal := Target(current, |listing|, movement);
            listing[i].id in after &&
            after[listing[i].id].displayOrder == if i + 1 == current then goal else GivesWay(i + 1, current, goal)
  {
    hide Move, Origin, GivesWay, Occurs;
    var goal := Target(current, |listing|, movement);
    var place := PlaceAfter(current, goal, |listing|, i);
    var moved := Move(listing, current - 1, goal - 1);
    MovedAt(listing, current - 1, goal - 1, place);
    hide Target;
    assert Reordered(listing, current, movement)[place] == listing[i].(displayOrder := place + 1);
  }

  /** In a notebook numbered 1 to n the listing is forced. */
  lemma ListingForced(rows: map<Id, Cell>, cells: seq<Cell>, other: seq<Cell>)
    requires NumberedBy(rows, cells) && Listing(rows, other)
    ensures other == cells
  {
    SameLength(rows, cells, other);
    forall i | 0 <= i < |other|
      ensures 1 <= other[i].displayOrder <= |cells| && cells[other[i].displayOrder - 1] == other[i]
    {
      assert Occurs(other[i].id, cells);
      var k :| 0 <= k < |cells| && cells[k].id == other[i].id;
    }
    StrictlyAscending(cells, other);
    hide Listing, NumberedBy;
    forall i | 0 <= i < |other|
      ensures other[i].displayOrder == i + 1
    {
      AtLeast(other, i);
      AtMost(other, i, |cells|);
    }
  }

  lemma StrictlyAscending(cells: seq<Cell>, other: seq<Cell>)
    requires Distinct(other) && Ascending(other)
    requires forall i :: 0 <= i < |other| ==>
               1 <= other[i].displayOrder <= |cells| && cells[other[i].displayOrder - 1] == other[i]
    ensures forall i, j :: 0 <= i < j < |other| ==> other[i].displayOrder < other[j].displayOrder
  {
  }

  lemma SameLength(rows: map<Id, Cell>, cells: seq<Cell>, other: seq<Cell>)
    requires Listing(rows, cells) && Listing(rows, other)
    ensures |cells| == |other|
  {
    IdsCount(rows, cells);
    IdsCount(rows, other);
  }

  ghost function Ids(cells: seq<Cell>): set<Id>
  {
    set c | c in cells :: c.id
  }

  lemma IdsCount(rows: map<Id, Cell>, cells: seq<Cell>)
    requires Listing(rows, cells)
    ensures |cells| == |rows.Keys|
  {
    forall id
      ensures id in Ids(cells) <==> id in rows
    {
      assert id in rows ==> Occurs(id, cells);
    }
    assert Ids(cells) == rows.Keys;
    DistinctIds(cells);
  }

  lemma {:induction false} DistinctIds(cells: seq<Cell>)
    requires forall i, j :: 0 <= i < j < |cells| ==> cells[i].id != cells[j].id
    ensures |Ids(cells)| == |cells|
  {
    if cells != [] {
      var rest := cells[1..];
      DistinctIds(rest);
      assert Ids(cells) == {cells[0].id} + Ids(rest);
      assert cells[0].id !in Ids(rest);
    }
  }

  lemma {:induction false} AtLeast(cells: seq<Cell>, i: nat)
    requires i < |cells| && forall j :: 0 <= j < |cells| ==> cells[j].displayOrder >= 1
    requires forall j, k :: 0 <= j < k < |cells| ==> cells[j].displayOrder < cells[k].displayOrder
    ensures cells[i].displayOrder >= i + 1
  {
    if i > 0 {
      AtLeast(cells, i - 1);
    }
  }

  lemma {:induction false} AtMost(cells: seq<Cell>, i: nat, n: nat)
    requires i < |cells| == n && forall j :: 0 <= j < |cells| ==> cells[j].displayOrder <= n
    requires forall j, k :: 0 <= j < k < |cells| ==> cells[j].displayOrder < cells[k].displayOrder
    ensures cells[i].displayOrder <= i + 1
    decreases n - i
  {
    if i + 1 < n {
      AtMost(cells, i + 1, n);
    }
  }

  function Opposite(movement: Movement): Movement
    requires movement.Up? || movement.Down?
  {
    if movement.Up? then Down else Up
  }

  /**
   In a notebook numbered 1 to n, moving a cell one place and back, whatever the second query
   answers, restores every row, unless the first move met the edge.
   */
  lemma ThereAndBack(rows: map<Id, Cell>, listing: seq<Cell>, id: Id, movement: Movement,
                     after: map<Id, Cell>, second: seq<Cell>, back: map<Id, Cell>)
    requires NumberedBy(rows, listing) && id in rows && (movement.Up? || movement.Down?)
    requires Target(rows[id].displayOrder, |listing|, movement) != rows[id].displayOrder
    requires 1 <= rows[id].displayOrder <= |listing|
    requires Stores(after, Reordered(listing, rows[id].displayOrder, movement))
    requires Listing(after, second) && id in after && 1 <= after[id].displayOrder <= |second|
    requires Stores(back, Reordered(second, after[id].displayOrder, Opposite(movement)))
    ensures back == rows
  {
    hide Move, Renumbered, Stores, Distinct, Ascending;
    var current := rows[id].displayOrder;
    var target := Target(current, |listing|, movement);
    var first := Reordered(listing, current, movement);
    assert Target(target, |listing|, Opposite(movement)) == current;
    ReorderIsPermutation(rows, listing, current, movement, after);
    RequestedCellMoves(rows, listing, id, movement);
    ListingForced(after, first, second);
    StoredAt(after, first, target - 1);
    RenumberMove(Move(listing, current - 1, target - 1), target - 1, current - 1);
    MoveBack(listing, current - 1, target - 1);
    NumberedIsRenumbered(rows, listing);
    StoresUnique(back, rows, listing);
  }

  lemma StoredAt(rows: map<Id, Cell>, cells: seq<Cell>, i: nat)
    requires NumberedBy(rows, cells) && i < |cells|
    ensures cells[i].id in rows && rows[cells[i].id] == cells[i] && cells[i].displayOrder == i + 1
  {
  }

  lemma NumberedIsRenumbered(rows: map<Id, Cell>, cells: seq<Cell>)
    requires NumberedBy(rows, cells)
    ensures Renumbered(cells) == cells && Stores(rows, cells)
  {
  }

  lemma RenumberMove(cells: seq<Cell>, from: nat, to: nat)
    requires from < |cells| && to < |cells|
    ensures Renumbered(Move(Renumbered(cells), from, to)) == Renumbered(Move(cells, from, to))
  {
    forall i | 0 <= i < |cells|
      ensures Move(Renumbered(cells), from, to)[i].(displayOrder := 0) == Move(cells, from, to)[i].(displayOrder := 0)
    {
      MovedAt(cells, from, to, i);
      MovedAt(Renumbered(cells), from, to, i);
    }
    forall i | 0 <= i < |cells|
      ensures Renumbered(Move(Renumbered(cells), from, to))[i] == Renumbered(Move(cells, from, to))[i]
    {
      assert Move(Renumbered(cells), from, to)[i].(displayOrder := 0) == Move(cells, from, to)[i].(displayOrder := 0);
    }
  }

  lemma StoresUnique(a: map<Id, Cell>, b: map<Id, Cell>, cells: seq<Cell>)
    requires Stores(a, cells) && Stores(b, cells)
    ensures a == b
  {
    forall id
      ensures id in a <==> id in b
      ensures id in a ==> a[id] == b[id]
    {
      assert id in a || id in b ==> Occurs(id, cells);
    }
  }

  /** In a notebook numbered from 0, asking for the second cell to move down moves the first. */
  lemma AnotherCellMoves(a: Cell, b: Cell)
    requires a.id != b.id && a.displayOrder == 0 && b.displayOrder == 1
    ensures var rows, listing := map[a.id := a, b.id := b], [a, b];
            Listing(rows, listing) && 1 <= rows[b.id].displayOrder <= |listing| &&
            Reordered(listing, rows[b.id].displayOrder, Down) == [b.(displayOrder := 1), a.(displayOrder := 2)]
  {
    var listing := [a, b];
    var rest := [b];
    assert Without(listing, 0) == rest;
    assert Inserted(rest, 1, a) == [b, a];
    forall id
      ensures Occurs(id, listing) <==> id == a.id || id == b.id
    {
      assert listing[0] == a && listing[1] == b;
    }
  }
}
