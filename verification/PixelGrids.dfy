/** Pixels of a rectangular region, numbered row by row, and which of them touch each other. */
module PixelGrids {
  import opened Basics

  function At(x: nat, y: nat, width: nat): nat {
    x + y * width
  }

  function X(p: nat, width: nat): nat
    requires width > 0
  {
    p % width
  }

  function Y(p: nat, width: nat): nat
    requires width > 0
  {
    p / width
  }

  lemma CoordinatesOfAt(x: nat, y: nat, width: nat)
    requires x < width
    ensures X(At(x, y, width), width) == x && Y(At(x, y, width), width) == y
  {
    var p := At(x, y, width);
    QuotientIsUnique(p / width, p % width, y, x, width);
  }

  lemma AtOfCoordinates(p: nat, width: nat, height: nat)
    requires width > 0 && p < width * height
    ensures At(X(p, width), Y(p, width), width) == p && X(p, width) < width && Y(p, width) < height
  {
    MultiplyKeepsOrder(height, p / width, width);
  }

  lemma AtIsInside(x: nat, y: nat, width: nat, height: nat)
    requires x < width && y < height
    ensures At(x, y, width) < width * height
  {
    assert (y + 1) * width <= height * width;
  }

  predicate Near(a: int, b: int) {
    -1 <= a - b <= 1
  }

  /** 8-connectivity: neighbouring columns and rows, corners included. */
  predicate Adjacent(width: nat, a: nat, b: nat)
    requires width > 0
  {
    a != b && Near(X(a, width), X(b, width)) && Near(Y(a, width), Y(b, width))
  }

  predicate Perimeter(width: nat, height: nat, p: nat)
    requires width > 0
  {
    X(p, width) == 0 || X(p, width) + 1 == width || Y(p, width) == 0 || Y(p, width) + 1 == height
  }

  // ------------------------------------------------------------- neighbours

  /** A neighbour list is right when its non-negative entries are the adjacent pixels of the grid. */
  ghost predicate ListsNeighbors(neighbors: seq<int>, width: nat, height: nat, p: nat)
    requires width > 0
  {
    forall q: int :: q in neighbors && q >= 0 <==> 0 <= q < width * height && Adjacent(width, p, q)
  }

  /** A column or row step off the grid, or the pixel it leads to. */
  function Shifted(width: nat, height: nat, p: nat, dx: int, dy: int): int
    requires width > 0
  {
    var x, y := X(p, width) as int + dx, Y(p, width) as int + dy;
    if 0 <= x < width && 0 <= y < height then x + y * width else -1
  }

  /** The neighbour at an offset is that pixel; there is no wrap across a row. */
  lemma ShiftedIsAdjacent(width: nat, height: nat, p: nat, dx: int, dy: int)
    requires width > 0 && p < width * height && -1 <= dx <= 1 && -1 <= dy <= 1 && (dx != 0 || dy != 0)
    ensures
      var q := Shifted(width, height, p, dx, dy);
      q >= 0 ==>
        && q < width * height && Adjacent(width, p, q)
        && X(q, width) == X(p, width) + dx && Y(q, width) == Y(p, width) + dy
  {
    var x, y := X(p, width) as int + dx, Y(p, width) as int + dy;
    AtOfCoordinates(p, width, height);
    if 0 <= x < width && 0 <= y < height {
      CoordinatesOfAt(x, y, width);
      AtIsInside(x, y, width, height);
    }
  }

  /** All eight neighbours are on the grid. */
  ghost predicate Surrounded(width: nat, height: nat, p: nat)
    requires width > 0
  {
    forall dx: int, dy: int | -1 <= dx <= 1 && -1 <= dy <= 1 :: Shifted(width, height, p, dx, dy) >= 0
  }

  /** The perimeter is where some step of one row and one column leaves the grid. */
  lemma PerimeterIsEdge(width: nat, height: nat, p: nat)
    requires width > 0 && p < width * height
    ensures Perimeter(width, height, p) <==> !Surrounded(width, height, p)
    ensures
      Perimeter(width, height, p) <==>
        exists dx: int, dy: int :: -1 <= dx <= 1 && -1 <= dy <= 1 && Shifted(width, height, p, dx, dy) < 0
  {
    AtOfCoordinates(p, width, height);
    var x, y := X(p, width), Y(p, width);
    forall dx: int, dy: int | -1 <= dx <= 1 && -1 <= dy <= 1
      ensures Shifted(width, height, p, dx, dy) >= 0 <==> 0 <= x + dx < width && 0 <= y + dy < height
    {
      ShiftedBySteps(width, height, p, dx, dy);
    }
    hide Shifted, X, Y;
    if x == 0 { assert Shifted(width, height, p, -1, 0) < 0; }
    if x + 1 == width { assert Shifted(width, height, p, 1, 0) < 0; }
    if y == 0 { assert Shifted(width, height, p, 0, -1) < 0; }
    if y + 1 == height { assert Shifted(width, height, p, 0, 1) < 0; }
  }

  lemma AdjacentIsShifted(width: nat, height: nat, p: nat, q: nat) returns (dx: int, dy: int)
    requires width > 0 && p < width * height && q < width * height && Adjacent(width, p, q)
    ensures -1 <= dx <= 1 && -1 <= dy <= 1 && (dx != 0 || dy != 0) && Shifted(width, height, p, dx, dy) == q
  {
    AtOfCoordinates(p, width, height);
    AtOfCoordinates(q, width, height);
    dx, dy := X(q, width) - X(p, width), Y(q, width) - Y(p, width);
  }

  /** The eight shifts, row by row. */
  function Shifts(width: nat, height: nat, p: nat): (r: seq<int>)
    requires width > 0
    ensures |r| == 8
  {
    [
      Shifted(width, height, p, -1, -1), Shifted(width, height, p, 0, -1), Shifted(width, height, p, 1, -1),
      Shifted(width, height, p, -1, 0), Shifted(width, height, p, 1, 0),
      Shifted(width, height, p, -1, 1), Shifted(width, height, p, 0, 1), Shifted(width, height, p, 1, 1)
    ]
  }

  lemma ShiftsListNeighbors(width: nat, height: nat, p: nat)
    requires width > 0 && p < width * height
    ensures ListsNeighbors(Shifts(width, height, p), width, height, p)
  {
    var shifts := Shifts(width, height, p);
    forall q: int | q in shifts && q >= 0
      ensures 0 <= q < width * height && Adjacent(width, p, q)
    {
      ShiftedIsAdjacent(width, height, p, -1, -1);
      ShiftedIsAdjacent(width, height, p, 0, -1);
      ShiftedIsAdjacent(width, height, p, 1, -1);
      ShiftedIsAdjacent(width, height, p, -1, 0);
      ShiftedIsAdjacent(width, height, p, 1, 0);
      ShiftedIsAdjacent(width, height, p, -1, 1);
      ShiftedIsAdjacent(width, height, p, 0, 1);
      ShiftedIsAdjacent(width, height, p, 1, 1);
      hide Shifted, Adjacent;
    }
    forall q: int | 0 <= q < width * height && Adjacent(width, p, q)
      ensures q in shifts
    {
      var dx, dy := AdjacentIsShifted(width, height, p, q);
      ShiftAtRank(width, height, p, dx, dy);
    }
  }

  function Inside(shifts: seq<int>): seq<int> {
    if shifts == [] then []
    else Inside(shifts[..|shifts| - 1]) + (if shifts[|shifts| - 1] >= 0 then [shifts[|shifts| - 1]] else [])
  }

  lemma {:induction false} InsideKeeps(shifts: seq<int>)
    ensures forall q :: q in Inside(shifts) <==> q in shifts && q >= 0
  {
    if shifts != [] {
      var n := |shifts| - 1;
      InsideKeeps(shifts[..n]);
      assert shifts == shifts[..n] + [shifts[n]];
    }
  }

  lemma InsideSnoc(shifts: seq<int>, k: nat)
    requires k < |shifts|
    ensures Inside(shifts[..k + 1]) == Inside(shifts[..k]) + (if shifts[k] >= 0 then [shifts[k]] else [])
  {
    assert shifts[..k + 1][..k] == shifts[..k];
  }

  function OffsetRank(dx: int, dy: int): int {
    (dy + 1) * 3 + (dx + 1) - (if dy > 0 || (dy == 0 && dx > 0) then 1 else 0)
  }

  lemma ShiftAtRank(width: nat, height: nat, p: nat, dx: int, dy: int)
    requires width > 0 && -1 <= dx <= 1 && -1 <= dy <= 1 && (dx != 0 || dy != 0)
    ensures 0 <= OffsetRank(dx, dy) < 8
    ensures Shifts(width, height, p)[OffsetRank(dx, dy)] == Shifted(width, height, p, dx, dy)
  {
    hide Shifted;
  }

  lemma ShiftedBySteps(width: nat, height: nat, p: nat, dx: int, dy: int)
    requires width > 0
    ensures
      var x, y := p % width + dx, p / width + dy;
      var inside := x >= 0 && x < width && y >= 0 && y < height;
      && Shifted(width, height, p, dx, dy) == (if inside then x + y * width else -1)
      && (inside <==> Shifted(width, height, p, dx, dy) >= 0)
  {
    var y := p / width + dy;
    if y >= 0 { MultiplyKeepsOrder(0, y, width); }
  }

  /** The scan over row and column offsets that skips the pixel itself. */
  method NeighborsByOffset(width: nat, height: nat, p: nat) returns (neighbors: seq<int>)
    requires width > 0 && p < width * height
    ensures ListsNeighbors(neighbors, width, height, p)
  {
    var x, y := p % width, p / width;
    neighbors := [];
    ghost var shifts := Shifts(width, height, p);
    InsideOfNothing();
    assert shifts[..0] == [];
    hide Shifts, Inside, ListsNeighbors, Shifted;
    for dy := -1 to 2
      invariant neighbors == Inside(shifts[..OffsetRank(-1, dy)])
    {
      for dx := -1 to 2
        invariant neighbors == Inside(shifts[..OffsetRank(dx, dy)])
      {
        if dx != 0 || dy != 0 {
          var neighborX, neighborY := x + dx, y + dy;
          ShiftAtRank(width, height, p, dx, dy);
          ShiftedBySteps(width, height, p, dx, dy);
          InsideSnoc(shifts, OffsetRank(dx, dy));
          if neighborX >= 0 && neighborX < width && neighborY >= 0 && neighborY < height {
            neighbors := neighbors + [neighborX + neighborY * width];
          }
        }
      }
    }
    assert shifts[..8] == shifts;
    InsideKeeps(shifts);
    ShiftsListNeighbors(width, height, p);
  }

  lemma InsideOfNothing()
    ensures Inside([]) == []
  {}

  /** The guarded list of eight offsets, with -1 for a neighbour off the grid. */
  method NeighborTable(width: nat, height: nat, p: nat) returns (neighbors: seq<int>)
    requires width > 0 && p < width * height
    ensures ListsNeighbors(neighbors, width, height, p)
  {
    var x, y := p % width, p / width;
    neighbors := [
      if x > 0 then p - 1 else -1,
      if x + 1 < width then p + 1 else -1,
      if y > 0 then p - width else -1,
      if y + 1 < height then p + width else -1,
      if x > 0 && y > 0 then p - width - 1 else -1,
      if x + 1 < width && y > 0 then p - width + 1 else -1,
      if x > 0 && y + 1 < height then p + width - 1 else -1,
      if x + 1 < width && y + 1 < height then p + width + 1 else -1
    ];
    AtOfCoordinates(p, width, height);
    RowStep(y, width);
    var shifts := Shifts(width, height, p);
    assert neighbors == [shifts[3], shifts[4], shifts[1], shifts[6], shifts[0], shifts[2], shifts[5], shifts[7]];
    ShiftsListNeighbors(width, height, p);
    SameEntries(neighbors, shifts);
  }

  lemma SameEntries(a: seq<int>, s: seq<int>)
    requires |s| == 8 && a == [s[3], s[4], s[1], s[6], s[0], s[2], s[5], s[7]]
    ensures forall q :: q in a <==> q in s
  {}
}
