/** How routes accumulate on the segments they use. */
module SegmentUse {
  import opened Routes
  import opened Search

  /** How many steps of a route run over `s`, in either direction. */
  function StepsOver(cells: seq<Cell>, s: Segment): nat {
    if |cells| <= 1 then 0
    else StepsOver(cells[..|cells| - 1], s) + (if Between(cells[|cells| - 2], cells[|cells| - 1]) == s then 1 else 0)
  }

  /** Total use of `s` by a list of routes. */
  function TotalUse(routes: seq<seq<Cell>>, s: Segment): nat {
    if routes == [] then 0
    else TotalUse(routes[..|routes| - 1], s) + StepsOver(routes[|routes| - 1], s)
  }

  /** The counter after recording a route step by step. */
  function AddRoute(occupied: Usage, cells: seq<Cell>): Usage {
    if |cells| <= 1 then occupied
    else
      var before := AddRoute(occupied, cells[..|cells| - 1]);
      var s := Between(cells[|cells| - 2], cells[|cells| - 1]);
      before[s := UseCount(before, s) + 1]
  }

  function OccupiedBy(routes: seq<seq<Cell>>): Usage {
    if routes == [] then map[]
    else AddRoute(OccupiedBy(routes[..|routes| - 1]), routes[|routes| - 1])
  }

  method Occupy(occupied0: Usage, cells: seq<Cell>) returns (occupied: Usage)
    requires |cells| >= 1
    ensures occupied == AddRoute(occupied0, cells)
  {
    occupied := occupied0;
    for i := 1 to |cells|
      invariant occupied == AddRoute(occupied0, cells[..i])
    {
      assert cells[..i + 1][..i] == cells[..i];
      var s := Between(cells[i - 1], cells[i]);
      occupied := occupied[s := UseCount(occupied, s) + 1];
    }
    assert cells[..|cells|] == cells;
  }

  lemma {:induction false} AddRouteCounts(occupied: Usage, cells: seq<Cell>, s: Segment)
    ensures UseCount(AddRoute(occupied, cells), s) == UseCount(occupied, s) + StepsOver(cells, s)
  {
    if |cells| > 1 {
      AddRouteCounts(occupied, cells[..|cells| - 1], s);
    }
  }

  lemma {:induction false} OccupiedStep(routes: seq<seq<Cell>>, cells: seq<Cell>)
    ensures OccupiedBy(routes + [cells]) == AddRoute(OccupiedBy(routes), cells)
  {
    assert (routes + [cells])[..|routes|] == routes;
  }

  /** The running counter is exactly the number of earlier steps over each segment. */
  lemma {:induction false} OccupiedCounts(routes: seq<seq<Cell>>, s: Segment)
    ensures UseCount(OccupiedBy(routes), s) == TotalUse(routes, s)
  {
    if routes != [] {
      var n := |routes| - 1;
      OccupiedCounts(routes[..n], s);
      AddRouteCounts(OccupiedBy(routes[..n]), routes[n], s);
    }
  }

  // ----- one route uses a segment at most twice -----

  ghost function MovesFrom(cells: seq<Cell>, a: Cell, b: Cell): nat {
    if |cells| <= 1 then 0
    else MovesFrom(cells[..|cells| - 1], a, b)
         + (if cells[|cells| - 2] == a && cells[|cells| - 1] == b then 1 else 0)
  }

  lemma {:induction false} NoMove(cells: seq<Cell>, a: Cell, b: Cell)
    requires forall i :: 0 < i < |cells| ==> cells[i - 1] != a || cells[i] != b
    ensures MovesFrom(cells, a, b) == 0
  {
    if |cells| > 1 {
      NoMove(cells[..|cells| - 1], a, b);
    }
  }

  /** The last move of such a route was not made before. */
  lemma {:induction false} MoveIsNew(cells: seq<Cell>)
    requires MovesDiffer(cells) && |cells| > 1
    ensures var n := |cells| - 1; var shorter := cells[..n];
            forall i :: 0 < i < |shorter| ==> shorter[i - 1] != cells[n - 1] || shorter[i] != cells[n]
  {
  }

  lemma {:induction false} MoveOnce(cells: seq<Cell>, a: Cell, b: Cell)
    requires MovesDiffer(cells)
    ensures MovesFrom(cells, a, b) <= 1
  {
    if |cells| > 1 {
      var n := |cells| - 1;
      var shorter := cells[..n];
      if cells[n - 1] == a && cells[n] == b {
        MoveIsNew(cells);
        NoMove(shorter, a, b);
      } else {
        MoveOnce(shorter, a, b);
      }
    }
  }

  lemma {:induction false} StepsAreMoves(cells: seq<Cell>, s: Segment)
    ensures StepsOver(cells, s) <= MovesFrom(cells, s.lo, s.hi) + MovesFrom(cells, s.hi, s.lo)
  {
    if |cells| > 1 {
      StepsAreMoves(cells[..|cells| - 1], s);
    }
  }

  /** Routes that never repeat a move load a segment with at most two uses each. */
  lemma {:induction false} UseBound(routes: seq<seq<Cell>>, s: Segment)
    requires forall k :: 0 <= k < |routes| ==> MovesDiffer(routes[k])
    ensures TotalUse(routes, s) <= 2 * |routes|
  {
    if routes != [] {
      var n := |routes| - 1;
      UseBound(routes[..n], s);
      StepsAreMoves(routes[n], s);
      MoveOnce(routes[n], s.lo, s.hi);
      MoveOnce(routes[n], s.hi, s.lo);
    }
  }

  // ----- prices without the table -----

  /** Step `i` of a route runs between `a` and `b`, one way or the other. */
  ghost predicate Crosses(cells: seq<Cell>, i: int, a: Cell, b: Cell) {
    0 < i < |cells| && ((cells[i - 1] == a && cells[i] == b) || (cells[i - 1] == b && cells[i] == a))
  }

  /** How often a route crosses between two cells. */
  ghost function Crossings(cells: seq<Cell>, a: Cell, b: Cell): nat {
    |set i | 0 < i < |cells| && Crosses(cells, i, a, b)|
  }

  ghost function AllCrossings(routes: seq<seq<Cell>>, a: Cell, b: Cell): nat {
    if routes == [] then 0
    else AllCrossings(routes[..|routes| - 1], a, b) + Crossings(routes[|routes| - 1], a, b)
  }

  lemma {:induction false} StepsAreCrossings(cells: seq<Cell>, a: Cell, b: Cell)
    ensures StepsOver(cells, Between(a, b)) == Crossings(cells, a, b)
  {
    var crossing := set i | 0 < i < |cells| && Crosses(cells, i, a, b);
    if |cells| > 1 {
      var n := |cells| - 1;
      var shorter := cells[..n];
      StepsAreCrossings(shorter, a, b);
      var before := set i | 0 < i < |shorter| && Crosses(shorter, i, a, b);
      assert forall i :: 0 < i < n ==> (Crosses(shorter, i, a, b) <==> Crosses(cells, i, a, b));
      assert crossing == if Crosses(cells, n, a, b) then before + {n} else before;
      SameSegment(cells[n - 1], cells[n], a, b);
    } else {
      assert crossing == {};
    }
  }

  /** Two steps share a segment exactly when they join the same two cells, whichever way they run. */
  lemma {:induction false} SameSegment(p: Cell, q: Cell, a: Cell, b: Cell)
    ensures Between(p, q) == Between(a, b) <==> (p == a && q == b) || (p == b && q == a)
  {
  }

  /** What the table says of two cells is how often the recorded routes crossed between them, in
      either direction. */
  lemma {:induction false} WeightIsCrossings(routes: seq<seq<Cell>>, a: Cell, b: Cell)
    ensures UseCount(OccupiedBy(routes), Between(a, b)) == AllCrossings(routes, a, b)
  {
    OccupiedCounts(routes, Between(a, b));
    TotalIsCrossings(routes, a, b);
  }

  lemma {:induction false} TotalIsCrossings(routes: seq<seq<Cell>>, a: Cell, b: Cell)
    ensures TotalUse(routes, Between(a, b)) == AllCrossings(routes, a, b)
  {
    if routes != [] {
      TotalIsCrossings(routes[..|routes| - 1], a, b);
      StepsAreCrossings(routes[|routes| - 1], a, b);
    }
  }

  /** The cells at which a walk changes direction. */
  ghost function Turns(cells: seq<Cell>): set<int> {
    set i | 0 < i < |cells| - 1 && TurnsAt(cells, i)
  }

  ghost predicate TurnsAt(cells: seq<Cell>, i: int) {
    && 0 < i < |cells| - 1
    && (cells[i].x - cells[i - 1].x, cells[i].y - cells[i - 1].y)
       != (cells[i + 1].x - cells[i].x, cells[i + 1].y - cells[i].y)
  }

  /** How often the recorded routes crossed the steps of a walk, all steps together. */
  ghost function Met(routes: seq<seq<Cell>>, cells: seq<Cell>): nat {
    if |cells| <= 1 then 0
    else Met(routes, cells[..|cells| - 1]) + AllCrossings(routes, cells[|cells| - 2], cells[|cells| - 1])
  }

  lemma {:induction false} TurnsGrow(cells: seq<Cell>)
    requires |cells| >= 2
    ensures var n := |cells| - 1;
            |Turns(cells)| == |Turns(cells[..n])| + (if TurnsAt(cells, n - 1) then 1 else 0)
  {
    var n := |cells| - 1;
    var shorter := cells[..n];
    assert forall i :: 0 < i < n - 1 ==> (TurnsAt(shorter, i) <==> TurnsAt(cells, i));
    assert Turns(cells) == if TurnsAt(cells, n - 1) then Turns(shorter) + {n - 1} else Turns(shorter);
  }

  /** The price of a walk over a grid where some routes are recorded: 1 for each step, 6 for each
      change of direction, and 30 for each time a recorded route crossed the same way or back. */
  lemma {:induction false} PriceOfWalk(routes: seq<seq<Cell>>, cells: seq<Cell>)
    requires |cells| >= 1
    ensures RouteCost(OccupiedBy(routes), cells) == |cells| - 1 + 6 * |Turns(cells)| + 30 * Met(routes, cells)
  {
    if |cells| == 1 {
      assert Turns(cells) == {};
    } else {
      var n := |cells| - 1;
      PriceOfWalk(routes, cells[..n]);
      TurnsGrow(cells);
      WeightIsCrossings(routes, cells[n - 1], cells[n]);
    }
  }
}
