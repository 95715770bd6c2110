/**
 Two parts of a room on the same floor (domain/seating/overlap.go): a grid that has to agree with
 looking at every pair of chairs. Coordinates are real numbers, and the conversion to a cell drops
 the fraction, so the cells around zero are twice as wide as the others.
 */
module Overlap {
  import opened Results

  const CHAIR := 12.0
  const TOUCHING := 1.0

  datatype Point = Point(x: real, y: real) {
    function Moved(step: Point): Point { Point(x + step.x, y + step.y) }
  }

  datatype Box = Box(minX: real, minY: real, maxX: real, maxY: real) {
    predicate Empty() { maxX <= minX || maxY <= minY }
    function Grown(step: real): Box { Box(minX - step, minY - step, maxX + step, maxY + step) }
    function Moved(step: Point): Box { Box(minX + step.x, minY + step.y, maxX + step.x, maxY + step.y) }
    predicate Holds(p: Point) { minX <= p.x <= maxX && minY <= p.y <= maxY }

    /** Inside the ellipse inscribed in the box. */
    predicate HoldsRound(p: Point) {
      var radiusX, radiusY := (maxX - minX) / 2.0, (maxY - minY) / 2.0;
      if radiusX <= 0.0 || radiusY <= 0.0 then false
      else
        var dx, dy := (p.x - (minX + radiusX)) / radiusX, (p.y - (minY + radiusY)) / radiusY;
        dx * dx + dy * dy <= 1.0
    }
  }

  /** A block of chairs is its chairs; scenery is its rectangle, or the ellipse in it. */
  datatype Footprint = Footprint(id: string, name: string, box: Box, round: bool, seats: seq<Point>) {
    function Moved(step: Point): Footprint {
      Footprint(id, name, box.Moved(step), round, MovedSeats(seats, step))
    }
  }

  function MovedSeats(seats: seq<Point>, step: Point): (r: seq<Point>)
    ensures |r| == |seats| && forall k | 0 <= k < |r| :: r[k] == seats[k].Moved(step)
  {
    seq(|seats|, k requires 0 <= k < |seats| => seats[k].Moved(step))
  }

  // ------------------------------------------------------------------- cells

  /** Go's conversion of a float to an int: the fraction is dropped, towards zero. */
  function Truncated(x: real): int {
    if x >= 0.0 then x.Floor else -((-x).Floor)
  }

  function CellOf(p: Point): (int, int) { (Truncated(p.x / CHAIR), Truncated(p.y / CHAIR)) }

  /** Strictly within a chair's reach of each other. */
  predicate Within(a: Point, b: Point) {
    (a.x - b.x) * (a.x - b.x) + (a.y - b.y) * (a.y - b.y) < CHAIR * CHAIR
  }

  /** Numbers less than one apart are truncated to neighbours, on either side of zero too. */
  lemma {:induction false} TruncatedNear(u: real, v: real)
    requires -1.0 < u - v < 1.0
    ensures -1 <= Truncated(u) - Truncated(v) <= 1
  {
  }

  lemma {:induction false} SquareBelow(d: real)
    requires d * d < CHAIR * CHAIR
    ensures -CHAIR < d < CHAIR
  {
    if d >= CHAIR {
      SquaresGrow(CHAIR, d);
    } else if d <= -CHAIR {
      SquaresGrow(CHAIR, -d);
    }
  }

  lemma {:induction false} SquaresGrow(a: real, b: real)
    requires 0.0 <= a <= b
    ensures a * a <= b * b
  {
    assert b * b - a * a == (b - a) * (b + a);
  }

  lemma {:induction false} SquareIsNatural(d: real)
    ensures d * d >= 0.0
  {
  }

  lemma {:induction false} DividedNear(a: real, b: real)
    requires -CHAIR < a - b < CHAIR
    ensures -1.0 < a / CHAIR - b / CHAIR < 1.0
  {
    assert a / CHAIR - b / CHAIR == (a - b) / CHAIR;
  }

  /** Chairs within reach of each other are in neighbouring cells, wherever zero is. */
  lemma {:induction false} NearIsNextDoor(a: Point, b: Point)
    requires Within(a, b)
    ensures -1 <= CellOf(a).0 - CellOf(b).0 <= 1 && -1 <= CellOf(a).1 - CellOf(b).1 <= 1
  {
    SquareIsNatural(a.x - b.x);
    SquareIsNatural(a.y - b.y);
    SquareBelow(a.x - b.x);
    SquareBelow(a.y - b.y);
    DividedNear(a.x, b.x);
    DividedNear(a.y, b.y);
    TruncatedNear(a.x / CHAIR, b.x / CHAIR);
    TruncatedNear(a.y / CHAIR, b.y / CHAIR);
  }

  // -------------------------------------------------------------------- grid

  datatype Grid = Grid(cells: map<(int, int), seq<Point>>) {
    function At(key: (int, int)): seq<Point> { if key in cells then cells[key] else [] }
  }

  /** The chairs of one cell, in the order they were given. */
  function InCell(seats: seq<Point>, key: (int, int)): seq<Point> {
    if seats == [] then []
    else
      var last := seats[|seats| - 1];
      InCell(seats[..|seats| - 1], key) + if CellOf(last) == key then [last] else []
  }

  ghost predicate Indexes(grid: Grid, seats: seq<Point>) {
    forall key :: grid.At(key) == InCell(seats, key)
  }

  lemma {:induction false} InCellAreSeats(seats: seq<Point>, key: (int, int), k: nat) returns (j: nat)
    requires k < |InCell(seats, key)|
    ensures j < |seats| && seats[j] == InCell(seats, key)[k]
  {
    var n := |seats| - 1;
    if k < |InCell(seats[..n], key)| {
      j := InCellAreSeats(seats[..n], key, k);
    } else {
      j := n;
    }
  }

  lemma {:induction false} SeatsAreInCells(seats: seq<Point>, j: nat) returns (k: nat)
    requires j < |seats|
    ensures k < |InCell(seats, CellOf(seats[j]))| && InCell(seats, CellOf(seats[j]))[k] == seats[j]
  {
    var n := |seats| - 1;
    if j < n {
      k := SeatsAreInCells(seats[..n], j);
    } else {
      k := |InCell(seats[..n], CellOf(seats[j]))|;
    }
  }

  method NewGrid(seats: seq<Point>) returns (grid: Grid)
    ensures Indexes(grid, seats)
  {
    grid := Grid(map[]);
    for k := 0 to |seats|
      invariant Indexes(grid, seats[..k])
    {
      assert seats[..k + 1][..k] == seats[..k];
      var seat := seats[k];
      var key := CellOf(seat);
      var next := Grid(grid.cells[key := grid.At(key) + [seat]]);
      forall other
        ensures next.At(other) == InCell(seats[..k + 1], other)
      {
        assert grid.At(other) == InCell(seats[..k], other);
        assert grid.At(other) + [] == grid.At(other);
      }
      grid := next;
    }
    TakeAll(seats);
  }

  ghost predicate NoneNear(seats: seq<Point>, p: Point) {
    forall k | 0 <= k < |seats| :: !Within(seats[k], p)
  }

  ghost predicate Clear(grid: Grid, x: int, y: int, p: Point) {
    NoneNear(grid.At((x, y)), p)
  }

  /** The nine cells around a point, one by one. */
  method Occupied(grid: Grid, ghost seats: seq<Point>, p: Point) returns (found: bool)
    requires Indexes(grid, seats)
    ensures found <==> exists j :: 0 <= j < |seats| && Within(seats[j], p)
  {
    var cellX, cellY := CellOf(p).0, CellOf(p).1;
    for dx := -1 to 2
      invariant forall x, y | cellX - 1 <= x < cellX + dx && cellY - 1 <= y <= cellY + 1 :: Clear(grid, x, y, p)
    {
      var column := cellX + dx;
      for dy := -1 to 2
        invariant forall y | cellY - 1 <= y < cellY + dy :: Clear(grid, column, y, p)
      {
        var near := LookInCell(grid, seats, column, cellY + dy, p);
        if near {
          return true;
        }
      }
    }
    NobodyAround(grid, seats, p);
    return false;
  }

  method LookInCell(grid: Grid, ghost seats: seq<Point>, x: int, y: int, p: Point) returns (near: bool)
    requires Indexes(grid, seats)
    ensures near ==> exists j :: 0 <= j < |seats| && Within(seats[j], p)
    ensures !near ==> Clear(grid, x, y, p)
  {
    var cell := grid.At((x, y));
    for k := 0 to |cell|
      invariant forall i | 0 <= i < k :: !Within(cell[i], p)
    {
      if Within(cell[k], p) {
        var j := InCellAreSeats(seats, (x, y), k);
        return true;
      }
    }
    return false;
  }

  /** A chair within reach is in one of the nine cells. */
  lemma {:induction false} NearIsFound(grid: Grid, seats: seq<Point>, p: Point, j: nat)
    requires Indexes(grid, seats) && j < |seats| && Within(seats[j], p)
    ensures var (x, y) := CellOf(seats[j]);
            && CellOf(p).0 - 1 <= x <= CellOf(p).0 + 1 && CellOf(p).1 - 1 <= y <= CellOf(p).1 + 1
            && !Clear(grid, x, y, p)
  {
    NearIsNextDoor(seats[j], p);
    var key := CellOf(seats[j]);
    var k := SeatsAreInCells(seats, j);
    assert grid.At(key)[k] == seats[j];
  }

  lemma {:induction false} NobodyAround(grid: Grid, seats: seq<Point>, p: Point)
    requires Indexes(grid, seats)
    requires var (cellX, cellY) := CellOf(p);
             forall x, y | cellX - 1 <= x < cellX + 2 && cellY - 1 <= y <= cellY + 1 :: Clear(grid, x, y, p)
    ensures forall j | 0 <= j < |seats| :: !Within(seats[j], p)
  {
    forall j | 0 <= j < |seats|
      ensures !Within(seats[j], p)
    {
      if Within(seats[j], p) {
        NearIsFound(grid, seats, p, j);
      }
    }
  }

  // ----------------------------------------------------------------- meeting

  ghost predicate ChairsMeet(a: seq<Point>, b: seq<Point>) {
    exists i, j :: 0 <= i < |a| && 0 <= j < |b| && Within(a[i], b[j])
  }

  predicate Touches(shape: Footprint, seat: Point) {
    var grown := shape.box.Grown(CHAIR - TOUCHING);
    if shape.round then grown.HoldsRound(seat) else grown.Holds(seat)
  }

  ghost predicate SeatIn(shape: Footprint, seats: seq<Point>) {
    !shape.box.Empty() && exists k :: 0 <= k < |seats| && Touches(shape, seats[k])
  }

  function Min(a: real, b: real): real { if a <= b then a else b }

  function Max(a: real, b: real): real { if a >= b then a else b }

  /** Two pieces of scenery, as rectangles even when one is round. */
  predicate BoxesMeet(a: Box, b: Box) {
    && !a.Empty() && !b.Empty()
    && Min(a.maxX, b.maxX) - Max(a.minX, b.minX) > TOUCHING
    && Min(a.maxY, b.maxY) - Max(a.minY, b.minY) > TOUCHING
  }

  /** On the same floor, looking at every pair. */
  ghost predicate Meet(a: Footprint, b: Footprint) {
    if a.seats != [] && b.seats != [] then ChairsMeet(a.seats, b.seats)
    else if a.seats != [] then SeatIn(b, a.seats)
    else if b.seats != [] then SeatIn(a, b.seats)
    else BoxesMeet(a.box, b.box)
  }

  /** The shape is not drawn flat, and the chair is within eleven units of it, or of the ellipse it stands for. */
  ghost predicate IsUnder(shape: Footprint, seat: Point) {
    && shape.box.minX < shape.box.maxX && shape.box.minY < shape.box.maxY
    && if !shape.round then
         && shape.box.minX - 11.0 <= seat.x <= shape.box.maxX + 11.0
         && shape.box.minY - 11.0 <= seat.y <= shape.box.maxY + 11.0
       else
         var radiusX, radiusY := (shape.box.maxX - shape.box.minX) / 2.0 + 11.0, (shape.box.maxY - shape.box.minY) / 2.0 + 11.0;
         var dx, dy := (seat.x - (shape.box.minX + shape.box.maxX) / 2.0) / radiusX,
                       (seat.y - (shape.box.minY + shape.box.maxY) / 2.0) / radiusY;
         dx * dx + dy * dy <= 1.0
  }

  /** Neither box is flat, and they share more than one unit across and more than one down. */
  ghost predicate ShareMoreThanAnEdge(a: Box, b: Box) {
    && a.minX < a.maxX && a.minY < a.maxY && b.minX < b.maxX && b.minY < b.maxY
    && (exists left :: IsShared(a.minX, a.maxX, b.minX, b.maxX, left))
    && (exists top :: IsShared(a.minY, a.maxY, b.minY, b.maxY, top))
  }

  /** Both spans hold the unit that starts here, and more after it. */
  predicate IsShared(from: real, to: real, otherFrom: real, otherTo: real, here: real) {
    from <= here && otherFrom <= here && here + 1.0 < to && here + 1.0 < otherTo
  }

  /** Within reach is less than twelve units away. */
  lemma {:induction false} WithinIs(a: Point, b: Point)
    ensures Within(a, b) <==> (a.x - b.x) * (a.x - b.x) + (a.y - b.y) * (a.y - b.y) < 144.0
  {
    assert CHAIR * CHAIR == 144.0;
  }

  lemma {:induction false} TouchingIs(shape: Footprint, seat: Point)
    ensures !shape.box.Empty() && Touches(shape, seat) <==> IsUnder(shape, seat)
  {
    if !shape.box.Empty() && shape.round {
      var grown := shape.box.Grown(11.0);
      var radiusX, radiusY := (grown.maxX - grown.minX) / 2.0, (grown.maxY - grown.minY) / 2.0;
      assert radiusX == (shape.box.maxX - shape.box.minX) / 2.0 + 11.0;
      assert radiusY == (shape.box.maxY - shape.box.minY) / 2.0 + 11.0;
      assert grown.minX + radiusX == (shape.box.minX + shape.box.maxX) / 2.0;
      assert grown.minY + radiusY == (shape.box.minY + shape.box.maxY) / 2.0;
    }
  }

  /** What it is for two footprints to meet: chairs under twelve units apart, a chair under a shape, or shapes overlapping. */
  lemma {:induction false} MeetingIs(a: Footprint, b: Footprint)
    ensures Meet(a, b) <==>
            if a.seats != [] && b.seats != [] then
              exists i, j :: 0 <= i < |a.seats| && 0 <= j < |b.seats| && Within(a.seats[i], b.seats[j])
            else if a.seats != [] then exists k | 0 <= k < |a.seats| :: IsUnder(b, a.seats[k])
            else if b.seats != [] then exists k | 0 <= k < |b.seats| :: IsUnder(a, b.seats[k])
            else ShareMoreThanAnEdge(a.box, b.box)
  {
    SeatInIs(b, a.seats);
    SeatInIs(a, b.seats);
    SharingIs(a.box, b.box);
  }

  lemma {:induction false} SeatInIs(shape: Footprint, seats: seq<Point>)
    ensures SeatIn(shape, seats) <==> exists k | 0 <= k < |seats| :: IsUnder(shape, seats[k])
  {
    forall k | 0 <= k < |seats|
      ensures !shape.box.Empty() && Touches(shape, seats[k]) <==> IsUnder(shape, seats[k])
    {
      TouchingIs(shape, seats[k]);
    }
  }

  lemma {:induction false} SharingIs(a: Box, b: Box)
    ensures BoxesMeet(a, b) <==> ShareMoreThanAnEdge(a, b)
  {
    if BoxesMeet(a, b) {
      assert IsShared(a.minX, a.maxX, b.minX, b.maxX, Max(a.minX, b.minX));
      assert IsShared(a.minY, a.maxY, b.minY, b.maxY, Max(a.minY, b.minY));
    }
  }

  lemma {:induction false} WithinIsMutual(a: Point, b: Point)
    ensures Within(a, b) <==> Within(b, a)
  {
    SquareOfNegation(a.x - b.x);
    SquareOfNegation(a.y - b.y);
  }

  lemma {:induction false} SquareOfNegation(d: real)
    ensures (-d) * (-d) == d * d
  {
  }

  /** Whether two footprints meet does not depend on which is asked first. */
  lemma {:induction false} MeetIsMutual(a: Footprint, b: Footprint)
    ensures Meet(a, b) <==> Meet(b, a)
  {
    if a.seats != [] && b.seats != [] {
      ChairsMeetBack(a.seats, b.seats);
      ChairsMeetBack(b.seats, a.seats);
    }
  }

  lemma {:induction false} ChairsMeetBack(a: seq<Point>, b: seq<Point>)
    ensures ChairsMeet(a, b) ==> ChairsMeet(b, a)
  {
    if i, j :| 0 <= i < |a| && 0 <= j < |b| && Within(a[i], b[j]) {
      WithinIsMutual(a[i], b[j]);
    }
  }

  lemma {:induction false} TouchingMoves(shape: Footprint, seat: Point, step: Point)
    ensures Touches(shape.Moved(step), seat.Moved(step)) <==> Touches(shape, seat)
  {
    var grown, moved := shape.box.Grown(CHAIR - TOUCHING), shape.Moved(step).box.Grown(CHAIR - TOUCHING);
    assert moved.maxX - moved.minX == grown.maxX - grown.minX && moved.maxY - moved.minY == grown.maxY - grown.minY;
    var radiusX, radiusY := (grown.maxX - grown.minX) / 2.0, (grown.maxY - grown.minY) / 2.0;
    assert seat.Moved(step).x - (moved.minX + radiusX) == seat.x - (grown.minX + radiusX);
    assert seat.Moved(step).y - (moved.minY + radiusY) == seat.y - (grown.minY + radiusY);
  }

  lemma {:induction false} SeatInMoves(shape: Footprint, seats: seq<Point>, step: Point)
    ensures SeatIn(shape.Moved(step), MovedSeats(seats, step)) <==> SeatIn(shape, seats)
  {
    forall k | 0 <= k < |seats|
      ensures Touches(shape.Moved(step), MovedSeats(seats, step)[k]) <==> Touches(shape, seats[k])
    {
      TouchingMoves(shape, seats[k], step);
    }
  }

  lemma {:induction false} ChairsMeetMoves(a: seq<Point>, b: seq<Point>, step: Point)
    ensures ChairsMeet(MovedSeats(a, step), MovedSeats(b, step)) <==> ChairsMeet(a, b)
  {
    forall i, j | 0 <= i < |a| && 0 <= j < |b|
      ensures Within(MovedSeats(a, step)[i], MovedSeats(b, step)[j]) <==> Within(a[i], b[j])
    {
      WithinMoves(a[i], b[j], step);
    }
  }

  lemma {:induction false} WithinMoves(a: Point, b: Point, step: Point)
    ensures Within(a.Moved(step), b.Moved(step)) <==> Within(a, b)
  {
    assert a.Moved(step).x - b.Moved(step).x == a.x - b.x;
    assert a.Moved(step).y - b.Moved(step).y == a.y - b.y;
  }

  /** Moving the whole room, across zero or anywhere else, changes nothing. */
  lemma {:induction false} MovingTheRoom(a: Footprint, b: Footprint, step: Point)
    ensures Meet(a.Moved(step), b.Moved(step)) <==> Meet(a, b)
  {
    ChairsMeetMoves(a.seats, b.seats, step);
    SeatInMoves(b, a.seats, step);
    SeatInMoves(a, b.seats, step);
  }

  method AnySeatIn(shape: Footprint, seats: seq<Point>) returns (found: bool)
    ensures found == SeatIn(shape, seats)
  {
    if shape.box.Empty() {
      return false;
    }
    for k := 0 to |seats|
      invariant forall j | 0 <= j < k :: !Touches(shape, seats[j])
    {
      var grown := shape.box.Grown(CHAIR - TOUCHING);
      var inside := grown.Holds(seats[k]);
      if shape.round {
        inside := grown.HoldsRound(seats[k]);
      }
      if inside {
        assert Touches(shape, seats[k]);
        return true;
      }
    }
    return false;
  }

  /** Chair by chair of the smaller block, looked up in the larger block's grid. */
  method WalkChairs(a: seq<Point>, b: seq<Point>, grid: Grid) returns (found: bool)
    requires Indexes(grid, b)
    ensures found == ChairsMeet(a, b)
  {
    for i := 0 to |a|
      invariant forall k, j | 0 <= k < i && 0 <= j < |b| :: !Within(a[k], b[j])
    {
      var near := Occupied(grid, b, a[i]);
      if near {
        var j :| 0 <= j < |b| && Within(b[j], a[i]);
        WithinIsMutual(b[j], a[i]);
        return true;
      }
      forall j | 0 <= j < |b|
        ensures !Within(a[i], b[j])
      {
        WithinIsMutual(b[j], a[i]);
      }
    }
    return false;
  }

  method Meets(a: Footprint, b: Footprint, gridA: Grid, gridB: Grid) returns (found: bool)
    requires Indexes(gridA, a.seats) && Indexes(gridB, b.seats)
    ensures found == Meet(a, b)
  {
    if |a.seats| > 0 && |b.seats| > 0 {
      if |a.seats| > |b.seats| {
        ChairsMeetBack(a.seats, b.seats);
        ChairsMeetBack(b.seats, a.seats);
        found := WalkChairs(b.seats, a.seats, gridA);
      } else {
        found := WalkChairs(a.seats, b.seats, gridB);
      }
    } else if |a.seats| > 0 {
      found := AnySeatIn(b, a.seats);
    } else if |b.seats| > 0 {
      found := AnySeatIn(a, b.seats);
    } else {
      if a.box.Empty() || b.box.Empty() {
        return false;
      }
      var shareX := Min(a.box.maxX, b.box.maxX) - Max(a.box.minX, b.box.minX);
      var shareY := Min(a.box.maxY, b.box.maxY) - Max(a.box.minY, b.box.minY);
      return shareX > TOUCHING && shareY > TOUCHING;
    }
  }

  // ---------------------------------------------------------------- the room

  method BuildGrids(footprints: seq<Footprint>) returns (grids: seq<Grid>)
    ensures |grids| == |footprints| && forall k | 0 <= k < |grids| :: Indexes(grids[k], footprints[k].seats)
  {
    grids := [];
    for k := 0 to |footprints|
      invariant |grids| == k && forall j | 0 <= j < k :: Indexes(grids[j], footprints[j].seats)
    {
      var grid := NewGrid(footprints[k].seats);
      grids := grids + [grid];
    }
  }

  function Named(name: string): string { if name == "" then "setor sem nome" else name }

  /** A footprint is called by its name, or as a section without one. */
  predicate IsNameOf(name: string, f: Footprint) {
    name != "" && (name == f.name || (f.name == "" && name == "setor sem nome"))
  }

  /** The names of the first pair that meets, in the order the room lists them. */
  method Overlaps(footprints: seq<Footprint>) returns (pair: Option<(string, string)>)
    ensures pair.None? <==> forall i, j | 0 <= i < j < |footprints| :: !Meet(footprints[i], footprints[j])
    ensures pair.Some? ==> exists i, j :: 0 <= i < j < |footprints| && FirstPair(footprints, i, j)
                                           && IsNameOf(pair.value.0, footprints[i]) && IsNameOf(pair.value.1, footprints[j])
  {
    var grids := BuildGrids(footprints);
    for i := 0 to |footprints|
      invariant forall x, y | 0 <= x < i && x < y < |footprints| :: !Meet(footprints[x], footprints[y])
    {
      for j := i + 1 to |footprints|
        invariant forall y | i < y < j :: !Meet(footprints[i], footprints[y])
      {
        var found := Meets(footprints[i], footprints[j], grids[i], grids[j]);
        if found {
          assert FirstPair(footprints, i, j);
          return Some((Named(footprints[i].name), Named(footprints[j].name)));
        }
      }
    }
    return None;
  }

  ghost predicate FirstPair(footprints: seq<Footprint>, i: nat, j: nat)
    requires i < j < |footprints|
  {
    && Meet(footprints[i], footprints[j])
    && forall x, y | 0 <= x < y < |footprints| && (x < i || (x == i && y < j)) :: !Meet(footprints[x], footprints[y])
  }

  ghost predicate Collides(footprints: seq<Footprint>, k: nat)
    requires k < |footprints|
  {
    exists j :: 0 <= j < |footprints| && j != k && Meet(footprints[k], footprints[j])
  }

  /** Some footprint of this id is on top of another. */
  ghost predicate IdCollides(footprints: seq<Footprint>, id: string) {
    exists k :: 0 <= k < |footprints| && footprints[k].id == id && Collides(footprints, k)
  }

  /** The colliding ids in the order the room lists them, of the first `n` footprints. */
  ghost function CollidingIds(footprints: seq<Footprint>, n: nat): seq<string>
    requires n <= |footprints|
  {
    if n == 0 then []
    else
      CollidingIds(footprints, n - 1)
      + if IdCollides(footprints, footprints[n - 1].id) then [footprints[n - 1].id] else []
  }

  /** Everything after `i` that meets it is marked, and `i` with it. */
  ghost predicate RowMarked(footprints: seq<Footprint>, i: nat, n: nat, hit: set<string>)
    requires i < |footprints| && n <= |footprints|
  {
    forall y | i < y < n && Meet(footprints[i], footprints[y]) :: footprints[i].id in hit && footprints[y].id in hit
  }

  method MarkRow(footprints: seq<Footprint>, grids: seq<Grid>, i: nat, before: set<string>) returns (hit: set<string>)
    requires |grids| == |footprints| && forall k | 0 <= k < |grids| :: Indexes(grids[k], footprints[k].seats)
    requires i < |footprints| && forall id | id in before :: IdCollides(footprints, id)
    ensures before <= hit && RowMarked(footprints, i, |footprints|, hit)
    ensures forall id | id in hit :: IdCollides(footprints, id)
  {
    hit := before;
    for j := i + 1 to |footprints|
      invariant before <= hit && RowMarked(footprints, i, j, hit)
      invariant forall id | id in hit :: IdCollides(footprints, id)
    {
      ghost var marked := hit;
      var found := Meets(footprints[i], footprints[j], grids[i], grids[j]);
      if found {
        BothCollide(footprints, i, j);
        hit := hit + {footprints[i].id, footprints[j].id};
      }
      MarkedNext(footprints, i, j, marked, hit);
    }
  }

  lemma {:induction false} MarkedNext(footprints: seq<Footprint>, i: nat, j: nat, before: set<string>, hit: set<string>)
    requires i < j < |footprints| && RowMarked(footprints, i, j, before) && before <= hit
    requires Meet(footprints[i], footprints[j]) ==> footprints[i].id in hit && footprints[j].id in hit
    ensures RowMarked(footprints, i, j + 1, hit)
  {
  }

  lemma {:induction false} BothCollide(footprints: seq<Footprint>, i: nat, j: nat)
    requires i < j < |footprints| && Meet(footprints[i], footprints[j])
    ensures IdCollides(footprints, footprints[i].id) && IdCollides(footprints, footprints[j].id)
  {
    MeetIsMutual(footprints[i], footprints[j]);
    assert Collides(footprints, i) && Collides(footprints, j);
  }

  lemma {:induction false} MarksStay(footprints: seq<Footprint>, x: nat, before: set<string>, hit: set<string>)
    requires x < |footprints| && RowMarked(footprints, x, |footprints|, before) && before <= hit
    ensures RowMarked(footprints, x, |footprints|, hit)
  {
  }

  lemma {:induction false} CollidingIsMarked(footprints: seq<Footprint>, hit: set<string>, k: nat)
    requires forall x | 0 <= x < |footprints| :: RowMarked(footprints, x, |footprints|, hit)
    requires k < |footprints| && Collides(footprints, k)
    ensures footprints[k].id in hit
  {
    var j :| 0 <= j < |footprints| && j != k && Meet(footprints[k], footprints[j]);
    MeetIsMutual(footprints[k], footprints[j]);
    assert RowMarked(footprints, if k < j then k else j, |footprints|, hit);
  }

  method FindHits(footprints: seq<Footprint>) returns (hit: set<string>)
    ensures forall id :: id in hit <==> IdCollides(footprints, id)
  {
    var grids := BuildGrids(footprints);
    hit := {};
    for i := 0 to |footprints|
      invariant forall id | id in hit :: IdCollides(footprints, id)
      invariant forall x | 0 <= x < i :: RowMarked(footprints, x, |footprints|, hit)
    {
      var marked := MarkRow(footprints, grids, i, hit);
      forall x | 0 <= x < i
        ensures RowMarked(footprints, x, |footprints|, marked)
      {
        MarksStay(footprints, x, hit, marked);
      }
      hit := marked;
    }
    forall id | IdCollides(footprints, id)
      ensures id in hit
    {
      var k :| 0 <= k < |footprints| && footprints[k].id == id && Collides(footprints, k);
      CollidingIsMarked(footprints, hit, k);
    }
  }

  method Colliding(footprints: seq<Footprint>) returns (out: seq<string>)
    ensures out == CollidingIds(footprints, |footprints|)
  {
    var hit := FindHits(footprints);
    out := [];
    for k := 0 to |footprints|
      invariant out == CollidingIds(footprints, k)
    {
      if footprints[k].id in hit {
        out := out + [footprints[k].id];
      }
    }
  }

  /** The two answers never disagree: no pair is reported exactly when nothing is painted. */
  lemma {:induction false} AnswersAgree(footprints: seq<Footprint>)
    ensures CollidingIds(footprints, |footprints|) == []
       <==> forall i, j | 0 <= i < j < |footprints| :: !Meet(footprints[i], footprints[j])
  {
    if i, j :| 0 <= i < j < |footprints| && Meet(footprints[i], footprints[j]) {
      assert Collides(footprints, i);
      Painted(footprints, |footprints|, i);
    } else {
      NothingPainted(footprints, |footprints|);
    }
  }

  lemma {:induction false} Painted(footprints: seq<Footprint>, n: nat, k: nat)
    requires k < n <= |footprints| && IdCollides(footprints, footprints[k].id)
    ensures footprints[k].id in CollidingIds(footprints, n)
  {
    if k < n - 1 {
      Painted(footprints, n - 1, k);
    }
  }

  lemma {:induction false} NothingPainted(footprints: seq<Footprint>, n: nat)
    requires n <= |footprints|
    requires forall i, j | 0 <= i < j < |footprints| :: !Meet(footprints[i], footprints[j])
    ensures CollidingIds(footprints, n) == []
  {
    if n > 0 {
      NothingPainted(footprints, n - 1);
      if k :| 0 <= k < |footprints| && footprints[k].id == footprints[n - 1].id && Collides(footprints, k) {
        var j :| 0 <= j < |footprints| && j != k && Meet(footprints[k], footprints[j]);
        MeetIsMutual(footprints[k], footprints[j]);
      }
    }
  }

  /** When ids are unique, what is painted is exactly the footprints with a partner they meet. */
  lemma {:induction false} UniqueIdsPaintThemselves(footprints: seq<Footprint>, k: nat)
    requires forall i, j | 0 <= i < j < |footprints| :: footprints[i].id != footprints[j].id
    requires k < |footprints|
    ensures IdCollides(footprints, footprints[k].id) <==> Collides(footprints, k)
  {
  }
}
