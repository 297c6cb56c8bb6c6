/** Routes on the clearance grid: what the edge router is allowed to draw and what a
    drawing costs. Nothing here mentions the search; the search is proved against it. */
module Routes {

  /** A grid cell; one cell is twelve pixels. */
  datatype Cell = Cell(x: int, y: int)

  /** An undirected unit segment, stored with its smaller end first. */
  datatype Segment = Segment(lo: Cell, hi: Cell)

  /** The searchable area: `blocked` holds the clearance cells around the node cards. */
  datatype Grid = Grid(columns: int, rows: int, blocked: set<Cell>)

  /** How often earlier edges have used each segment; absent means never. */
  type Usage = map<Segment, nat>

  const STEP_COST := 1
  const BEND_COST := 6
  const REUSE_COST := 30

  function Abs(i: int): nat {
    if i < 0 then -i else i
  }

  function Distance(a: Cell, b: Cell): nat {
    Abs(a.x - b.x) + Abs(a.y - b.y)
  }

  predicate Free(g: Grid, c: Cell) {
    1 <= c.x < g.columns && 11 <= c.y < g.rows && c !in g.blocked
  }

  predicate CellLess(a: Cell, b: Cell) {
    a.x < b.x || (a.x == b.x && a.y < b.y)
  }

  function Between(a: Cell, b: Cell): Segment {
    if CellLess(b, a) then Segment(b, a) else Segment(a, b)
  }

  function UseCount(occupied: Usage, s: Segment): nat {
    if s in occupied then occupied[s] else 0
  }

  predicate Bends(a: Cell, b: Cell, c: Cell) {
    b.x - a.x != c.x - b.x || b.y - a.y != c.y - b.y
  }

  /** Unit steps over free cells. The first cell itself is not required to be free. */
  ghost predicate IsWalk(g: Grid, cells: seq<Cell>) {
    && |cells| >= 1
    && forall i :: 0 < i < |cells| ==> Distance(cells[i - 1], cells[i]) == 1 && Free(g, cells[i])
  }

  ghost predicate IsRoute(g: Grid, start: Cell, finish: Cell, cells: seq<Cell>) {
    IsWalk(g, cells) && cells[0] == start && cells[|cells| - 1] == finish
  }

  /** What the last step of a walk adds: the step, a bend (never on the first move), and reuse. */
  function LastStepCost(occupied: Usage, cells: seq<Cell>): nat
    requires |cells| >= 2
  {
    var n := |cells|;
    STEP_COST
    + (if n >= 3 && Bends(cells[n - 3], cells[n - 2], cells[n - 1]) then BEND_COST else 0)
    + UseCount(occupied, Between(cells[n - 2], cells[n - 1])) * REUSE_COST
  }

  function RouteCost(occupied: Usage, cells: seq<Cell>): nat {
    if |cells| <= 1 then 0
    else RouteCost(occupied, cells[..|cells| - 1]) + LastStepCost(occupied, cells)
  }

  /** A unit step changes the distance to any fixed cell by at most one. */
  lemma {:induction false} StepDistance(a: Cell, b: Cell, finish: Cell)
    requires Distance(a, b) == 1
    ensures Distance(a, finish) <= Distance(b, finish) + 1
  {
  }

  /** The Manhattan distance never overestimates what is left of a route, whatever the usage. */
  lemma {:induction false} RemainingCost(g: Grid, occupied: Usage, cells: seq<Cell>, i: nat)
    requires IsWalk(g, cells) && i < |cells|
    ensures RouteCost(occupied, cells[..i + 1]) + Distance(cells[i], cells[|cells| - 1])
            <= RouteCost(occupied, cells)
    decreases |cells| - i
  {
    if i + 1 == |cells| {
      assert cells[..i + 1] == cells;
    } else {
      var longer := cells[..i + 2];
      assert longer[..|longer| - 1] == cells[..i + 1];
      StepDistance(cells[i], cells[i + 1], cells[|cells| - 1]);
      RemainingCost(g, occupied, cells, i + 1);
    }
  }

  /** Every prefix of a route costs no more than the whole. */
  lemma {:induction false} PrefixCost(g: Grid, occupied: Usage, cells: seq<Cell>, i: nat)
    requires IsWalk(g, cells) && i < |cells|
    ensures RouteCost(occupied, cells[..i + 1]) <= RouteCost(occupied, cells)
  {
    RemainingCost(g, occupied, cells, i);
  }
}
