/** A route that always exists: up the start column to the free band above the first row of cards,
    along it, and down the finish column. */
module Detour {
  import opened Routes
  import opened Layout

  /** The row of the free band the detour uses. */
  const BAND := 13

  /** The columns edges leave and enter cards in. */
  ghost predicate IsLane(x: int) {
    x in {33, 71, 109, 4, 42, 80}
  }

  lemma {:induction false} LaneFree(d: Diagram, positions: Positions, bottom: int, g: Grid, c: Cell)
    requires CardsAligned(d, positions, bottom) && IsGridFor(g, positions, bottom)
    requires IsLane(c.x) && 11 <= c.y < g.rows
    ensures Free(g, c)
  {
  }

  lemma {:induction false} BandFree(d: Diagram, positions: Positions, bottom: int, g: Grid, c: Cell)
    requires CardsAligned(d, positions, bottom) && IsGridFor(g, positions, bottom)
    requires 1 <= c.x < 124 && c.y == BAND
    ensures Free(g, c)
  {
  }

  // ----- straight extensions -----

  function Toward(c: Cell, t: Cell): Cell {
    if c.x < t.x then Cell(c.x + 1, c.y)
    else if t.x < c.x then Cell(c.x - 1, c.y)
    else if c.y < t.y then Cell(c.x, c.y + 1)
    else Cell(c.x, c.y - 1)
  }

  function Extend(cells: seq<Cell>, t: Cell): (r: seq<Cell>)
    requires |cells| >= 1
    ensures cells <= r && r[|r| - 1] == t
    decreases Distance(cells[|cells| - 1], t)
  {
    var c := cells[|cells| - 1];
    if c == t then cells else Extend(cells + [Toward(c, t)], t)
  }

  ghost predicate OnLine(c: Cell, a: Cell, b: Cell) {
    && (a.x <= c.x <= b.x || b.x <= c.x <= a.x)
    && (a.y <= c.y <= b.y || b.y <= c.y <= a.y)
  }

  /** Going straight on towards `t` needs no bend. */
  ghost predicate Heading(cells: seq<Cell>, t: Cell)
    requires |cells| >= 1
  {
    var n := |cells|;
    n == 1 || !Bends(cells[n - 2], cells[n - 1], Toward(cells[n - 1], t))
  }

  ghost predicate UsedAtMost(occupied: Usage, most: nat) {
    forall s :: UseCount(occupied, s) <= most
  }

  lemma {:induction false} OneStepCost(occupied: Usage, most: nat, cells: seq<Cell>, next: Cell)
    requires |cells| >= 1 && UsedAtMost(occupied, most)
    ensures var n := |cells|;
            RouteCost(occupied, cells + [next])
            <= RouteCost(occupied, cells) + 1 + most * 30
               + (if n == 1 || !Bends(cells[n - 2], cells[n - 1], next) then 0 else 6)
  {
  }

  lemma {:induction false} TowardFacts(c: Cell, t: Cell)
    requires c != t && (c.x == t.x || c.y == t.y)
    ensures var next := Toward(c, t);
            && Distance(c, next) == 1 && Distance(c, t) == Distance(next, t) + 1
            && OnLine(next, c, t) && (forall o :: OnLine(o, next, t) ==> OnLine(o, c, t))
            && (next.x == t.x || next.y == t.y)
            && (next != t ==> !Bends(c, next, Toward(next, t)))
  {
  }

  /** A free straight leg can be walked. */
  lemma {:induction false} LegWalk(g: Grid, cells: seq<Cell>, t: Cell)
    requires IsWalk(g, cells)
    requires var c := cells[|cells| - 1]; c.x == t.x || c.y == t.y
    requires forall c :: OnLine(c, cells[|cells| - 1], t) ==> Free(g, c)
    ensures IsWalk(g, Extend(cells, t))
    decreases Distance(cells[|cells| - 1], t)
  {
    var c := cells[|cells| - 1];
    if c != t {
      TowardFacts(c, t);
      LegWalk(g, cells + [Toward(c, t)], t);
    }
  }

  lemma {:induction false} OneMore(n: nat, unit: nat)
    ensures (n + 1) * unit == n * unit + unit
  {
  }

  /** A straight leg costs one unit per step and at most one bend. */
  lemma {:induction false} LegCost(occupied: Usage, most: nat, unit: nat, cells: seq<Cell>, t: Cell)
    requires |cells| >= 1 && UsedAtMost(occupied, most) && unit == 1 + most * 30
    requires var c := cells[|cells| - 1]; c.x == t.x || c.y == t.y
    ensures RouteCost(occupied, Extend(cells, t))
            <= RouteCost(occupied, cells) + Distance(cells[|cells| - 1], t) * unit
               + (if Heading(cells, t) then 0 else 6)
    decreases Distance(cells[|cells| - 1], t)
  {
    var c := cells[|cells| - 1];
    if c != t {
      var next := Toward(c, t);
      var longer := cells + [next];
      TowardFacts(c, t);
      OneStepCost(occupied, most, cells, next);
      OneMore(Distance(next, t), unit);
      assert Extend(cells, t) == Extend(longer, t);
      assert longer[|longer| - 1] == next;
      if next != t {
        assert Heading(longer, t);
        LegCost(occupied, most, unit, longer, t);
      }
    }
  }

  function DetourRoute(start: Cell, finish: Cell): seq<Cell> {
    Extend(Extend(Extend([start], Cell(start.x, BAND)), Cell(finish.x, BAND)), finish)
  }

  function DetourLength(start: Cell, finish: Cell): nat {
    Abs(start.y - BAND) + Abs(start.x - finish.x) + Abs(finish.y - BAND)
  }

  lemma {:induction false} DistributeLegs(a: nat, b: nat, c: nat, unit: nat)
    ensures a * unit + b * unit + c * unit == (a + b + c) * unit
  {
  }

  /** The detour is a route, whatever cards are placed, and its price is bounded by its length. */
  lemma {:induction false} DetourExists(d: Diagram, positions: Positions, bottom: int, g: Grid,
                                        occupied: Usage, most: nat, start: Cell, finish: Cell)
    requires CardsAligned(d, positions, bottom) && IsGridFor(g, positions, bottom)
    requires UsedAtMost(occupied, most)
    requires IsLane(start.x) && IsLane(finish.x)
    requires BAND <= start.y < g.rows && BAND <= finish.y < g.rows
    ensures IsRoute(g, start, finish, DetourRoute(start, finish))
    ensures RouteCost(occupied, DetourRoute(start, finish))
            <= DetourLength(start, finish) * (1 + most * 30) + 12
  {
    var top, turn := Cell(start.x, BAND), Cell(finish.x, BAND);
    forall c | OnLine(c, start, top) || OnLine(c, turn, finish)
      ensures Free(g, c)
    {
      LaneFree(d, positions, bottom, g, c);
    }
    forall c | OnLine(c, top, turn)
      ensures Free(g, c)
    {
      BandFree(d, positions, bottom, g, c);
    }
    var up := Extend([start], top);
    LegWalk(g, [start], top);
    LegWalk(g, up, turn);
    LegWalk(g, Extend(up, turn), finish);
    DetourCost(occupied, most, start, finish);
  }

  lemma {:induction false} DetourCost(occupied: Usage, most: nat, start: Cell, finish: Cell)
    requires UsedAtMost(occupied, most)
    ensures RouteCost(occupied, DetourRoute(start, finish))
            <= DetourLength(start, finish) * (1 + most * 30) + 12
  {
    var top, turn := Cell(start.x, BAND), Cell(finish.x, BAND);
    var up := Extend([start], top);
    var across := Extend(up, turn);
    ThreeLegs(occupied, most, 1 + most * 30, start, top, turn, finish, up, across);
  }

  lemma {:induction false} ThreeLegs(occupied: Usage, most: nat, unit: nat, start: Cell, top: Cell, turn: Cell,
                                     finish: Cell, up: seq<Cell>, across: seq<Cell>)
    requires UsedAtMost(occupied, most) && unit == 1 + most * 30
    requires start.x == top.x && top.y == turn.y && turn.x == finish.x
    requires up == Extend([start], top) && across == Extend(up, turn)
    ensures RouteCost(occupied, Extend(across, finish))
            <= (Distance(start, top) + Distance(top, turn) + Distance(turn, finish)) * unit + 12
  {
    FirstLegCost(occupied, most, unit, start, top);
    LaterLegCost(occupied, most, unit, up, turn, top);
    LaterLegCost(occupied, most, unit, across, finish, turn);
    DistributeLegs(Distance(start, top), Distance(top, turn), Distance(turn, finish), unit);
  }

  lemma {:induction false} FirstLegCost(occupied: Usage, most: nat, unit: nat, start: Cell, t: Cell)
    requires UsedAtMost(occupied, most) && unit == 1 + most * 30 && (start.x == t.x || start.y == t.y)
    ensures RouteCost(occupied, Extend([start], t)) <= Distance(start, t) * unit
  {
    LegCost(occupied, most, unit, [start], t);
  }

  lemma {:induction false} LaterLegCost(occupied: Usage, most: nat, unit: nat, cells: seq<Cell>, t: Cell, c: Cell)
    requires UsedAtMost(occupied, most) && unit == 1 + most * 30
    requires |cells| >= 1 && cells[|cells| - 1] == c && (c.x == t.x || c.y == t.y)
    ensures RouteCost(occupied, Extend(cells, t)) <= RouteCost(occupied, cells) + Distance(c, t) * unit + 6
  {
    LegCost(occupied, most, unit, cells, t);
  }
}
