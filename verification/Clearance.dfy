/** What the routed strokes promise the reader of a diagram: they leave and enter cards at the
    sides, or at the diamonds inside, and never cross one. */
module Clearance {
  import opened Routes
  import opened Search
  import opened Layout
  import opened SegmentUse
  import opened Polyline
  import opened Diamonds
  import opened Router

  /** Not strictly inside the card. */
  ghost predicate Outside(r: Rect, s: Spot) {
    || s.x <= r.x as real || (r.x + r.width) as real <= s.x
    || s.y <= r.y as real || (r.y + r.height) as real <= s.y
  }

  /** At least 24 pixels left of or above the card, or 12 right of or below it. */
  ghost predicate WellClear(r: Rect, s: Spot) {
    || s.x <= (r.x - 24) as real || (r.x + r.width + 12) as real <= s.x
    || s.y <= (r.y - 24) as real || (r.y + r.height + 12) as real <= s.y
  }

  function PixelOf(c: Cell): Point {
    Point(c.x * 12, c.y * 12)
  }

  /** The side of the card a free cell is on. */
  lemma {:induction false} FreeSide(r: Rect, ports: nat, bottom: int, c: Cell)
    requires IsCard(r, ports, bottom) && !InClearance(r, c)
    ensures c.x * 12 <= r.x - 24 || r.x + r.width + 12 <= c.x * 12
            || c.y * 12 <= r.y - 24 || r.y + r.height + 12 <= c.y * 12
  {
  }

  /** One step between two free cells keeps to one side of any card. */
  lemma {:induction false} StepSide(r: Rect, ports: nat, bottom: int, a: Cell, b: Cell)
    requires IsCard(r, ports, bottom) && Distance(a, b) == 1
    requires !InClearance(r, a) && !InClearance(r, b)
    ensures || (a.x * 12 <= r.x - 24 && b.x * 12 <= r.x - 24)
            || (r.x + r.width + 12 <= a.x * 12 && r.x + r.width + 12 <= b.x * 12)
            || (a.y * 12 <= r.y - 24 && b.y * 12 <= r.y - 24)
            || (r.y + r.height + 12 <= a.y * 12 && r.y + r.height + 12 <= b.y * 12)
  {
    FreeSide(r, ports, bottom, a);
    FreeSide(r, ports, bottom, b);
  }

  lemma {:induction false} StepWellClear(r: Rect, ports: nat, bottom: int, a: Cell, b: Cell, s: Spot)
    requires IsCard(r, ports, bottom) && Distance(a, b) == 1
    requires !InClearance(r, a) && !InClearance(r, b)
    requires OnSegment(s, PixelOf(a), PixelOf(b))
    ensures WellClear(r, s)
  {
    StepSide(r, ports, bottom, a, b);
  }

  /** Every place on the searched part of a stroke is well clear of every placed card. */
  lemma {:induction false} RouteWellClear(d: Diagram, positions: Positions, bottom: int, g: Grid, cells: seq<Cell>,
                                          id: string, s: Spot)
    requires CardsAligned(d, positions, bottom) && IsGridFor(g, positions, bottom)
    requires IsWalk(g, cells) && Free(g, cells[0])
    requires id in positions && OnPolyline(s, InPixels(cells))
    ensures WellClear(positions[id], s)
  {
    var i :| 0 <= i < |InPixels(cells)| - 1 && OnSegment(s, InPixels(cells)[i], InPixels(cells)[i + 1]);
    assert Free(g, cells[i]) && Free(g, cells[i + 1]) && Distance(cells[i], cells[i + 1]) == 1;
    assert IsCard(positions[id], Degree(d.edges, id), bottom);
    StepWellClear(positions[id], Degree(d.edges, id), bottom, cells[i], cells[i + 1], s);
  }

  /** The ends of edge `k`: card, port height and terminal cell. */
  ghost predicate StrokeOf(d: Diagram, positions: Positions, g: Grid, k: nat, cells: seq<Cell>,
                           a: Rect, sy: int, b: Rect, ty: int)
    requires k < |d.edges|
  {
    && Known(d, positions, k)
    && a == positions[d.edges[k].source] && b == positions[d.edges[k].target]
    && sy == PortY(d.edges, k, d.edges[k].source, a) && ty == PortY(d.edges, k, d.edges[k].target, b)
    && IsRoute(g, StartCell(a, sy), FinishCell(b, ty), cells)
  }

  lemma {:induction false} StrokeEnds(d: Diagram, positions: Positions, bottom: int, g: Grid, k: nat, cells: seq<Cell>,
                                      a: Rect, sy: int, b: Rect, ty: int)
    requires CardsAligned(d, positions, bottom) && IsGridFor(g, positions, bottom) && k < |d.edges|
    requires StrokeOf(d, positions, g, k, cells, a, sy, b, ty)
    ensures Free(g, cells[0])
    ensures InPixels(cells)[0] == Point(a.x + a.width + 24, sy)
    ensures InPixels(cells)[|cells| - 1] == Point(b.x - 24, ty)
  {
    TerminalsFree(d, positions, bottom, g, k, d.edges[k].source);
    TerminalsFree(d, positions, bottom, g, k, d.edges[k].target);
  }

  /** The stroke is axis-parallel and never stands still. */
  lemma {:induction false} StrokeShape(g: Grid, a: Rect, sy: int, cells: seq<Cell>, b: Rect, ty: int)
    requires IsWalk(g, cells)
    requires InPixels(cells)[0] == Point(a.x + a.width + 24, sy)
    requires InPixels(cells)[|cells| - 1] == Point(b.x - 24, ty)
    ensures AxisParallel(Stroke(a, sy, cells, b, ty)) && Advances(Stroke(a, sy, cells, b, ty))
  {
  }

  lemma {:induction false} StrokeOutside(d: Diagram, positions: Positions, bottom: int, g: Grid, k: nat,
                                         cells: seq<Cell>,
                                         a: Rect, sy: int, b: Rect, ty: int, id: string, s: Spot)
    requires CardsAligned(d, positions, bottom) && IsGridFor(g, positions, bottom) && k < |d.edges|
    requires StrokeOf(d, positions, g, k, cells, a, sy, b, ty)
    requires id in positions && OnPolyline(s, Stroke(a, sy, cells, b, ty))
    ensures Outside(positions[id], s)
  {
    var i := StrokePiece(a, sy, cells, b, ty, s);
    StrokeEnds(d, positions, bottom, g, k, cells, a, sy, b, ty);
    if i == 0 {
      StubOfCard(d, positions, bottom, d.edges[k].source, id, sy, s);
    } else if i == |cells| {
      StubOfCard(d, positions, bottom, d.edges[k].target, id, ty, s);
    } else {
      RoutePieceOutside(d, positions, bottom, g, cells, i - 1, id, s);
    }
  }

  /** Which piece of the stroke a place is on: the first stub, a step of the route, or the last stub. */
  lemma {:induction false} StrokePiece(a: Rect, sy: int, cells: seq<Cell>, b: Rect, ty: int, s: Spot) returns (i: nat)
    requires |cells| >= 1 && OnPolyline(s, Stroke(a, sy, cells, b, ty))
    ensures i <= |cells|
    ensures i == 0 ==> OnSegment(s, Point(a.x + a.width, sy), InPixels(cells)[0])
    ensures i == |cells| ==> OnSegment(s, InPixels(cells)[|cells| - 1], Point(b.x, ty))
    ensures 0 < i < |cells| ==> OnSegment(s, InPixels(cells)[i - 1], InPixels(cells)[i])
  {
    var stroke := Stroke(a, sy, cells, b, ty);
    i :| 0 <= i < |stroke| - 1 && OnSegment(s, stroke[i], stroke[i + 1]);
  }

  lemma {:induction false} RoutePieceOutside(d: Diagram, positions: Positions, bottom: int, g: Grid,
                                             cells: seq<Cell>, i: nat, id: string, s: Spot)
    requires CardsAligned(d, positions, bottom) && IsGridFor(g, positions, bottom)
    requires IsWalk(g, cells) && Free(g, cells[0]) && id in positions
    requires i + 1 < |cells| && OnSegment(s, InPixels(cells)[i], InPixels(cells)[i + 1])
    ensures Outside(positions[id], s)
  {
  }

  lemma {:induction false} StubOfCard(d: Diagram, positions: Positions, bottom: int, end: string, id: string, y: int,
                                      s: Spot)
    requires CardsAligned(d, positions, bottom) && end in positions && id in positions
    requires var a := positions[end];
             || OnSegment(s, Point(a.x + a.width, y), Point(a.x + a.width + 24, y))
             || OnSegment(s, Point(a.x - 24, y), Point(a.x, y))
    ensures Outside(positions[id], s)
  {
  }

  /** The simplified stroke of an edge, before its ends are drawn on: axis-parallel, level at both
      ends, from port to port, and outside every placed card. */
  lemma {:induction false} SimplifiedStroke(d: Diagram, positions: Positions, bottom: int, g: Grid, k: nat,
                                            cells: seq<Cell>, a: Rect, sy: int, b: Rect, ty: int)
    requires CardsAligned(d, positions, bottom) && IsGridFor(g, positions, bottom) && k < |d.edges|
    requires StrokeOf(d, positions, g, k, cells, a, sy, b, ty)
    ensures var points := Simplified(Stroke(a, sy, cells, b, ty)); var n := |points| - 1;
            && n >= 1 && AxisParallel(points)
            && points[0] == Point(a.x + a.width, sy) && points[1].y == sy
            && points[n] == Point(b.x, ty) && points[n - 1].y == ty
    ensures forall s, id :: OnPolyline(s, Simplified(Stroke(a, sy, cells, b, ty))) && id in positions ==>
              Outside(positions[id], s)
  {
    var stroke := Stroke(a, sy, cells, b, ty);
    StrokeEnds(d, positions, bottom, g, k, cells, a, sy, b, ty);
    StrokeShape(g, a, sy, cells, b, ty);
    SimplifiedInside(stroke);
    FirstPieceLevel(stroke);
    LastPieceLevel(stroke);
    forall s, id | OnPolyline(s, Simplified(stroke)) && id in positions
      ensures Outside(positions[id], s)
    {
      StrokeOutside(d, positions, bottom, g, k, cells, a, sy, b, ty, id, s);
    }
  }

  ghost predicate Disjoint(r: Rect, q: Rect) {
    r.y + r.height <= q.y || r.x + r.width <= q.x || q.y + q.height <= r.y || q.x + q.width <= r.x
  }

  lemma {:induction false} PositionsDisjoint(d: Diagram, j: nat, k: nat)
    requires j < |d.nodes| && k < |d.nodes| && j != k
    ensures Disjoint(Position(d, j), Position(d, k))
  {
    CardsApart(d, if j < k then j else k, if j < k then k else j);
  }

  /** Different placed cards never overlap. */
  lemma {:induction false} CardsDisjoint(d: Diagram, positions: Positions, id: string, other: string)
    requires Placed(d.nodes, Cards(d), |d.nodes|, positions)
    requires id in positions && other in positions && positions[id] != positions[other]
    ensures Disjoint(positions[id], positions[other])
  {
    var j := PlacedIndex(d.nodes, Cards(d), positions, id);
    var k := PlacedIndex(d.nodes, Cards(d), positions, other);
    PositionsDisjoint(d, j, k);
  }

  lemma {:induction false} PlacedIndex(nodes: seq<Node>, cards: seq<Rect>, positions: Positions, id: string)
    returns (k: nat)
    requires |cards| == |nodes| && Placed(nodes, cards, |nodes|, positions) && id in positions
    ensures k < |nodes| && LastCalled(nodes, |nodes|, id, k) && positions[id] == cards[k]
  {
    k :| LastCalled(nodes, |nodes|, id, k) && positions[id] == cards[k];
  }

  /** Outside every placed card but this one. */
  ghost predicate OutsideOthers(positions: Positions, r: Rect, s: Spot) {
    forall id :: id in positions && positions[id] != r ==> Outside(positions[id], s)
  }

  /** Where a drawn stroke may be: outside every placed card, or on the way between the side of a
      decision's card, at one of its ends, and the diamond inside. */
  ghost predicate OnClearGround(positions: Positions, a: Rect, fromDecision: bool, b: Rect, toDecision: bool, s: Spot) {
    || (forall id :: id in positions ==> Outside(positions[id], s))
    || (fromDecision && OnRightEntry(a, s) && OutsideOthers(positions, a, s))
    || (toDecision && OnLeftEntry(b, s) && OutsideOthers(positions, b, s))
  }

  lemma {:induction false} InsideOneCard(d: Diagram, positions: Positions, id: string, s: Spot)
    requires Placed(d.nodes, Cards(d), |d.nodes|, positions) && id in positions
    requires var r := positions[id];
             && r.x as real <= s.x <= (r.x + r.width) as real
             && r.y as real <= s.y <= (r.y + r.height) as real
    ensures OutsideOthers(positions, positions[id], s)
  {
    forall other | other in positions && positions[other] != positions[id]
      ensures Outside(positions[other], s)
    {
      CardsDisjoint(d, positions, id, other);
    }
  }

  lemma {:induction false} EntryInCard(r: Rect, s: Spot)
    requires r.width > 1 && r.height > 0 && (OnRightEntry(r, s) || OnLeftEntry(r, s))
    ensures r.x as real <= s.x <= (r.x + r.width) as real
    ensures r.y as real <= s.y <= (r.y + r.height) as real
  {
    OutlineAt(r, s.y);
  }

  lemma {:induction false} RightEntryClear(d: Diagram, positions: Positions, id: string, p: Point, s: Spot)
    requires Placed(d.nodes, Cards(d), |d.nodes|, positions) && id in positions
    requires var r := positions[id];
             r.width == 300 && p.x == r.x + r.width && r.y < p.y < r.y + r.height && OnSegment(s, RightEnd(r, p), p)
    ensures OnRightEntry(positions[id], s) && OutsideOthers(positions, positions[id], s)
  {
    RightEntry(positions[id], p, s);
    EntryInCard(positions[id], s);
    InsideOneCard(d, positions, id, s);
  }

  lemma {:induction false} LeftEntryClear(d: Diagram, positions: Positions, id: string, p: Point, s: Spot)
    requires Placed(d.nodes, Cards(d), |d.nodes|, positions) && id in positions
    requires var r := positions[id];
             r.width == 300 && p.x == r.x && r.y < p.y < r.y + r.height && OnSegment(s, p, LeftEnd(r, p))
    ensures OnLeftEntry(positions[id], s) && OutsideOthers(positions, positions[id], s)
  {
    LeftEntry(positions[id], p, s);
    EntryInCard(positions[id], s);
    InsideOneCard(d, positions, id, s);
  }

  lemma {:induction false} OnlyMovedEnds(points: seq<Point>, a: Rect, fromDecision: bool, b: Rect,
                                         toDecision: bool, s: Spot)
    requires |points| >= 2 && points[1].y == points[0].y && points[|points| - 2].y == points[|points| - 1].y
    requires OnPolyline(s, Adjusted(points, a, fromDecision, b, toDecision))
    ensures var n := |points| - 1;
            || OnPolyline(s, points)
            || (fromDecision && OnSegment(s, RightEnd(a, points[0]), points[0]))
            || (toDecision && OnSegment(s, points[n], LeftEnd(b, points[n])))
  {
    var n := |points| - 1;
    MovedEnds(points, Adjusted(points, a, fromDecision, b, toDecision), s);
    assert OnSegment(s, points[0], points[0]) ==> OnSegment(s, points[0], points[0 + 1]);
    assert OnSegment(s, points[n], points[n]) ==> OnSegment(s, points[n - 1], points[n - 1 + 1]);
  }

  /** A place on an adjusted stroke is on the stroke or on the way of one of its ends. */
  lemma {:induction false} AdjustedStroke(d: Diagram, positions: Positions, source: string, target: string,
                                          points: seq<Point>, fromDecision: bool, toDecision: bool, s: Spot)
    requires Placed(d.nodes, Cards(d), |d.nodes|, positions) && source in positions && target in positions
    requires var a, b := positions[source], positions[target]; var n := |points| - 1;
             && a.width == b.width == 300 && n >= 1
             && points[0].x == a.x + a.width && points[1].y == points[0].y && a.y < points[0].y < a.y + a.height
             && points[n].x == b.x && points[n - 1].y == points[n].y && b.y < points[n].y < b.y + b.height
    requires forall id :: OnPolyline(s, points) && id in positions ==> Outside(positions[id], s)
    requires OnPolyline(s, Adjusted(points, positions[source], fromDecision, positions[target], toDecision))
    ensures OnClearGround(positions, positions[source], fromDecision, positions[target], toDecision, s)
  {
    var a, b := positions[source], positions[target];
    var n := |points| - 1;
    OnlyMovedEnds(points, a, fromDecision, b, toDecision, s);
    if fromDecision && OnSegment(s, RightEnd(a, points[0]), points[0]) {
      RightEntryClear(d, positions, source, points[0], s);
    }
    if toDecision && OnSegment(s, points[n], LeftEnd(b, points[n])) {
      LeftEntryClear(d, positions, target, points[n], s);
    }
  }

  /** In every layout, each drawn edge is an axis-parallel polyline. It starts strictly inside the
      right side of its source card, or on the right half of the diamond there; it ends likewise on
      the left of its target; and it enters no placed card except on the way to those diamonds. */
  lemma {:induction false} DrawnEdge(d: Diagram, positions: Positions, g: Grid, routes: seq<seq<Cell>>,
                                     points: seq<seq<Point>>, k: nat)
    requires IsLayout(d, positions, g, routes, points) && k < |routes|
    ensures Known(d, positions, k) && |points[k]| >= 2 && AxisParallel(points[k])
    ensures var e := d.edges[k]; var a, b := positions[e.source], positions[e.target];
            && StartsAt(a, MeetsDecision(d, e.source), points[k][0])
            && EndsAt(b, MeetsDecision(d, e.target), points[k][|points[k]| - 1])
            && forall s :: OnPolyline(s, points[k]) ==>
                 OnClearGround(positions, a, MeetsDecision(d, e.source), b, MeetsDecision(d, e.target), s)
  {
    var bottom := RowTop(Heights(d), RowCount(|d.nodes|));
    PlacedCards(d, positions, bottom);
    assert EdgeRouted(d, positions, g, routes[..k], k, routes[k], points[k]);
    var e := d.edges[k];
    var a, b := positions[e.source], positions[e.target];
    DrawnEnds(d, positions, bottom, g, routes[..k], k, routes[k], points[k]);
    forall s | OnPolyline(s, points[k])
      ensures OnClearGround(positions, a, MeetsDecision(d, e.source), b, MeetsDecision(d, e.target), s)
    {
      DrawnSpot(d, positions, bottom, g, routes[..k], k, routes[k], points[k], s);
    }
  }

  lemma {:induction false} DrawnEnds(d: Diagram, positions: Positions, bottom: int, g: Grid, earlier: seq<seq<Cell>>,
                                     k: nat, cells: seq<Cell>, points: seq<Point>)
    requires CardsAligned(d, positions, bottom) && IsGridFor(g, positions, bottom) && k < |d.edges|
    requires EdgeRouted(d, positions, g, earlier, k, cells, points)
    ensures |points| >= 2 && AxisParallel(points)
    ensures StartsAt(positions[d.edges[k].source], MeetsDecision(d, d.edges[k].source), points[0])
    ensures EndsAt(positions[d.edges[k].target], MeetsDecision(d, d.edges[k].target), points[|points| - 1])
  {
    var e := d.edges[k];
    var a, b := positions[e.source], positions[e.target];
    var sy, ty := PortY(d.edges, k, e.source, a), PortY(d.edges, k, e.target, b);
    SimplifiedStroke(d, positions, bottom, g, k, cells, a, sy, b, ty);
    PortOnSide(d, positions, bottom, k, e.source);
    PortOnSide(d, positions, bottom, k, e.target);
    CardSize(d, positions, bottom, e.source);
    CardSize(d, positions, bottom, e.target);
    MovedAxisParallel(Simplified(Stroke(a, sy, cells, b, ty)), points);
    RightEndOnOutline(a, Point(a.x + a.width, sy));
    LeftEndOnOutline(b, Point(b.x, ty));
  }

  lemma {:induction false} CardSize(d: Diagram, positions: Positions, bottom: int, id: string)
    requires CardsAligned(d, positions, bottom) && id in positions
    ensures positions[id].width == 300 && positions[id].height > 0
  {
  }

  lemma {:induction false} DrawnSpot(d: Diagram, positions: Positions, bottom: int, g: Grid, earlier: seq<seq<Cell>>,
                                     k: nat, cells: seq<Cell>, points: seq<Point>, s: Spot)
    requires Placed(d.nodes, Cards(d), |d.nodes|, positions)
    requires CardsAligned(d, positions, bottom) && IsGridFor(g, positions, bottom) && k < |d.edges|
    requires EdgeRouted(d, positions, g, earlier, k, cells, points) && OnPolyline(s, points)
    ensures var e := d.edges[k];
            OnClearGround(positions, positions[e.source], MeetsDecision(d, e.source),
                          positions[e.target], MeetsDecision(d, e.target), s)
  {
    var e := d.edges[k];
    var a, b := positions[e.source], positions[e.target];
    var sy, ty := PortY(d.edges, k, e.source, a), PortY(d.edges, k, e.target, b);
    SimplifiedStroke(d, positions, bottom, g, k, cells, a, sy, b, ty);
    PortOnSide(d, positions, bottom, k, e.source);
    PortOnSide(d, positions, bottom, k, e.target);
    CardSize(d, positions, bottom, e.source);
    CardSize(d, positions, bottom, e.target);
    AdjustedStroke(d, positions, e.source, e.target, Simplified(Stroke(a, sy, cells, b, ty)),
                   MeetsDecision(d, e.source), MeetsDecision(d, e.target), s);
  }

  /** The card of every node that is the last of its name is a placed card. */
  lemma {:induction false} LastOfNamePlaced(d: Diagram, positions: Positions, j: nat)
    requires Placed(d.nodes, Cards(d), |d.nodes|, positions)
    requires j < |d.nodes| && LastCalled(d.nodes, |d.nodes|, d.nodes[j].id, j)
    ensures d.nodes[j].id in positions && positions[d.nodes[j].id] == Position(d, j)
  {
    var k: nat :| LastCalled(d.nodes, |d.nodes|, d.nodes[j].id, k) && positions[d.nodes[j].id] == Cards(d)[k];
    assert j == k;
  }

  // ----- the sentinel does bite -----

  /** Terminals a billion cells apart have no affordable route, whatever lies between. */
  lemma {:induction false} TooFar(g: Grid, occupied: Usage, start: Cell, finish: Cell, cells: seq<Cell>)
    requires Distance(start, finish) >= SENTINEL && IsRoute(g, start, finish, cells)
    ensures RouteCost(occupied, cells) >= SENTINEL
  {
    assert cells[..1] == [start];
    RemainingCost(g, occupied, cells, 0);
  }

  /** Four cards, the first with a label of 600 million lines, and an edge from it to the fourth. */
  function TallDiagram(): Diagram {
    Diagram([Node("a", 600_000_000, false), Node("b", 1, false), Node("c", 1, false), Node("e", 1, false)],
            [Edge("a", "e")], false)
  }

  /** A name used once is placed at its own card. */
  lemma {:induction false} PlacedOnce(nodes: seq<Node>, cards: seq<Rect>, positions: Positions, k: nat)
    requires |cards| == |nodes| && Placed(nodes, cards, |nodes|, positions) && k < |nodes|
    requires forall j :: 0 <= j < |nodes| && j != k ==> nodes[j].id != nodes[k].id
    ensures nodes[k].id in positions && positions[nodes[k].id] == cards[k]
  {
  }

  lemma {:induction false} TallCards(positions: Positions)
    requires Placed(TallDiagram().nodes, Cards(TallDiagram()), 4, positions)
    ensures "a" in positions && positions["a"] == Position(TallDiagram(), 0)
    ensures "e" in positions && positions["e"] == Position(TallDiagram(), 3)
  {
    var nodes := TallDiagram().nodes;
    assert "a"[0] == 'a' && "b"[0] == 'b' && "c"[0] == 'c' && "e"[0] == 'e';
    PlacedOnce(nodes, Cards(TallDiagram()), positions, 0);
    PlacedOnce(nodes, Cards(TallDiagram()), positions, 3);
  }

  lemma {:induction false} TallGap()
    ensures Position(TallDiagram(), 0).y + 13_800_000_000 <= Position(TallDiagram(), 3).y
  {
    var d := TallDiagram();
    HeightsAligned(d);
    RowGap(Heights(d), 0, 1);
    assert Height(d, 0) >= 48 + d.nodes[0].lines * 23;
  }

  /** Ports of one edge twelve billion pixels apart leave it blocked. */
  lemma {:induction false} FarPortsBlocked(d: Diagram, positions: Positions, g: Grid, earlier: seq<seq<Cell>>, k: nat)
    requires k < |d.edges| && Known(d, positions, k)
    requires var e := d.edges[k];
             PortY(d.edges, k, e.source, positions[e.source]) + 12 * SENTINEL + 12
             <= PortY(d.edges, k, e.target, positions[e.target])
    ensures EdgeBlocked(d, positions, g, earlier, k)
  {
    var e := d.edges[k];
    var a, b := positions[e.source], positions[e.target];
    var start := StartCell(a, PortY(d.edges, k, e.source, a));
    var finish := FinishCell(b, PortY(d.edges, k, e.target, b));
    forall cells | IsRoute(g, start, finish, cells)
      ensures RouteCost(OccupiedBy(earlier), cells) >= SENTINEL
    {
      TooFar(g, OccupiedBy(earlier), start, finish, cells);
    }
  }

  /** Routing is not total: this diagram, which has no room to route, is stopped at its one edge. */
  lemma {:induction false} TallDiagramBlocked(positions: Positions, g: Grid)
    requires IsLayout(TallDiagram(), positions, g, [], [])
    ensures EdgeBlocked(TallDiagram(), positions, g, [], 0)
  {
    var d := TallDiagram();
    TallCards(positions);
    TallGap();
    assert d.edges[..1] == d.edges && d.edges[..0] == [];
    assert Degree(d.edges, "a") == 1 by {
      assert "e" != "a";
    }
    FarPortsBlocked(d, positions, g, [], 0);
  }

  /** The failing input on the code itself. */
  method LayOutTallDiagram() returns (r: Routing)
    ensures r == NoClearRoute(0)
  {
    r := GridLayout(TallDiagram());
    if r.Routed? {
      assert r.routes[..0] == [] && r.points[..0] == [];
      assert EdgeRouted(TallDiagram(), r.positions, r.grid, r.routes[..0], 0, r.routes[0], r.points[0]);
      TallDiagramBlocked(r.positions, r.grid);
      assert false;
    }
    if r.UnknownNode? {
      TallNames();
      assert false;
    }
  }

  lemma {:induction false} TallNames()
    ensures NamesNodes(TallDiagram(), 0)
  {
    assert TallDiagram().nodes[0].id == "a" && TallDiagram().nodes[3].id == "e";
  }
}
