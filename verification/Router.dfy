/** The grid layout as a whole: place the cards, block their clearance, then route, simplify and
    record one edge after another. */
module Router {
  import opened Options
  import opened Routes
  import opened Search
  import opened Layout
  import opened SegmentUse
  import opened Detour
  import opened Polyline
  import opened Diamonds

  /** What laying out a diagram produces, or the edge it stops at. */
  datatype Routing =
    | Routed(positions: Positions, grid: Grid, routes: seq<seq<Cell>>, points: seq<seq<Point>>)
    | NoClearRoute(edge: nat)
    | UnknownNode(edge: nat)

  /** The height at which edge `k` meets the card of one of its ends: one port further down for
      every edge end already there. */
  function PortY(edges: seq<Edge>, k: nat, id: string, r: Rect): int
    requires k < |edges|
  {
    r.y + 24 + Degree(edges[..k + 1], id) * 12
  }

  function StartCell(r: Rect, y: int): Cell {
    Cell((r.x + r.width + 24) / 12, y / 12)
  }

  function FinishCell(r: Rect, y: int): Cell {
    Cell((r.x - 24) / 12, y / 12)
  }

  function InPixels(cells: seq<Cell>): (points: seq<Point>)
    ensures |points| == |cells|
    ensures forall i :: 0 <= i < |cells| ==> points[i] == Point(cells[i].x * 12, cells[i].y * 12)
  {
    seq(|cells|, i requires 0 <= i < |cells| => Point(cells[i].x * 12, cells[i].y * 12))
  }

  /** The whole stroke: a stub out of the source card, the route, a stub into the target card. */
  function Stroke(a: Rect, sy: int, cells: seq<Cell>, b: Rect, ty: int): seq<Point> {
    [Point(a.x + a.width, sy)] + InPixels(cells) + [Point(b.x, ty)]
  }

  // ----- ports -----

  ghost predicate Touches(e: Edge, id: string) {
    e.source == id || e.target == id
  }

  /** A port lies on a cell boundary, strictly between the card's top and bottom edge. */
  lemma {:induction false} PortOnSide(d: Diagram, positions: Positions, bottom: int, k: nat, id: string)
    requires CardsAligned(d, positions, bottom)
    requires k < |d.edges| && Touches(d.edges[k], id) && id in positions
    ensures var r := positions[id]; var y := PortY(d.edges, k, id, r);
            y % 12 == 0 && r.y + 36 <= y < r.y + r.height
  {
    DegreeGrows(d.edges, id, k + 1);
    assert IsCard(positions[id], Degree(d.edges, id), bottom);
  }

  /** Two edges at one card never share a port. */
  lemma {:induction false} PortsSeparate(edges: seq<Edge>, j: nat, k: nat, id: string, r: Rect)
    requires j < k < |edges| && Touches(edges[k], id)
    ensures PortY(edges, j, id, r) < PortY(edges, k, id, r)
  {
    var upTo := edges[..k + 1];
    assert upTo[..k] == edges[..k];
    assert edges[..k][..j + 1] == edges[..j + 1];
    DegreeGrows(edges[..k], id, j + 1);
  }

  ghost predicate GoodTerminal(g: Grid, c: Cell) {
    IsLane(c.x) && BAND <= c.y < g.rows && Free(g, c)
  }

  /** Both ends of every edge are free cells, at exactly the pixel height of their ports. */
  lemma {:induction false} TerminalsFree(d: Diagram, positions: Positions, bottom: int, g: Grid, k: nat, id: string)
    requires CardsAligned(d, positions, bottom) && IsGridFor(g, positions, bottom)
    requires k < |d.edges| && Touches(d.edges[k], id) && id in positions
    ensures var r := positions[id]; var y := PortY(d.edges, k, id, r);
            && GoodTerminal(g, StartCell(r, y)) && GoodTerminal(g, FinishCell(r, y))
            && InPixels([StartCell(r, y)])[0] == Point(r.x + r.width + 24, y)
            && InPixels([FinishCell(r, y)])[0] == Point(r.x - 24, y)
  {
    var r := positions[id];
    var y := PortY(d.edges, k, id, r);
    PortOnSide(d, positions, bottom, k, id);
    assert IsCard(r, Degree(d.edges, id), bottom);
    LaneFree(d, positions, bottom, g, StartCell(r, y));
    LaneFree(d, positions, bottom, g, FinishCell(r, y));
  }

  // ----- one edge -----

  ghost predicate Cheapest(g: Grid, occupied: Usage, start: Cell, finish: Cell, cells: seq<Cell>) {
    && IsRoute(g, start, finish, cells)
    && forall other :: IsRoute(g, start, finish, other) ==>
         RouteCost(occupied, cells) <= RouteCost(occupied, other)
  }

  predicate Known(d: Diagram, positions: Positions, k: nat)
    requires k < |d.edges|
  {
    d.edges[k].source in positions && d.edges[k].target in positions
  }

  /** Edge `k` was given a cheapest route, counting what the earlier routes already use, and its
      simplified stroke, drawn on to the diamonds it meets. */
  ghost predicate EdgeRouted(d: Diagram, positions: Positions, g: Grid, earlier: seq<seq<Cell>>,
                             k: nat, cells: seq<Cell>, points: seq<Point>)
    requires k < |d.edges|
  {
    && Known(d, positions, k)
    && var a, b := positions[d.edges[k].source], positions[d.edges[k].target];
       var sy, ty := PortY(d.edges, k, d.edges[k].source, a), PortY(d.edges, k, d.edges[k].target, b);
       && Cheapest(g, OccupiedBy(earlier), StartCell(a, sy), FinishCell(b, ty), cells)
       && RouteCost(OccupiedBy(earlier), cells) < SENTINEL
       && MovesDiffer(cells)
       && points == Adjusted(Simplified(Stroke(a, sy, cells, b, ty)), a, MeetsDecision(d, d.edges[k].source),
                             b, MeetsDecision(d, d.edges[k].target))
  }

  /** No route for edge `k` costs less than the search's sentinel. */
  ghost predicate EdgeBlocked(d: Diagram, positions: Positions, g: Grid, earlier: seq<seq<Cell>>, k: nat)
    requires k < |d.edges|
  {
    && Known(d, positions, k)
    && var a, b := positions[d.edges[k].source], positions[d.edges[k].target];
       var sy, ty := PortY(d.edges, k, d.edges[k].source, a), PortY(d.edges, k, d.edges[k].target, b);
       forall cells :: IsRoute(g, StartCell(a, sy), FinishCell(b, ty), cells) ==>
         RouteCost(OccupiedBy(earlier), cells) >= SENTINEL
  }

  function Count(used: map<string, nat>, id: string): nat {
    if id in used then used[id] else 0
  }

  lemma {:induction false} UsedAfter(edges: seq<Edge>, k: nat, id: string)
    requires k < |edges|
    ensures Degree(edges[..k + 1], id)
            == Degree(edges[..k], id)
               + (if edges[k].source == id then 1 else 0) + (if edges[k].target == id then 1 else 0)
  {
    assert edges[..k + 1][..k] == edges[..k];
  }

  method RouteEdge(d: Diagram, positions: Positions, g: Grid, ghost earlier: seq<seq<Cell>>,
                   occupied: Usage, k: nat, sy: int, ty: int)
    returns (r: Option<seq<Cell>>, points: seq<Point>)
    requires k < |d.edges| && Known(d, positions, k) && occupied == OccupiedBy(earlier)
    requires sy == PortY(d.edges, k, d.edges[k].source, positions[d.edges[k].source])
    requires ty == PortY(d.edges, k, d.edges[k].target, positions[d.edges[k].target])
    ensures r.Some? ==> EdgeRouted(d, positions, g, earlier, k, r.value, points) && |r.value| >= 1
    ensures r.None? ==> EdgeBlocked(d, positions, g, earlier, k)
  {
    var a, b := positions[d.edges[k].source], positions[d.edges[k].target];
    r := FindRoute(g, occupied, StartCell(a, sy), FinishCell(b, ty));
    points := [];
    if r.Some? {
      var simplified := Simplify(Stroke(a, sy, r.value, b, ty));
      points := AdjustEnds(simplified, a, MeetsDecision(d, d.edges[k].source), b, MeetsDecision(d, d.edges[k].target));
    }
  }

  // ----- the whole diagram -----

  ghost predicate AllRouted(d: Diagram, positions: Positions, g: Grid,
                            routes: seq<seq<Cell>>, points: seq<seq<Point>>)
  {
    && |points| == |routes| <= |d.edges|
    && forall k :: 0 <= k < |routes| ==> EdgeRouted(d, positions, g, routes[..k], k, routes[k], points[k])
  }

  lemma {:induction false} AllRoutedStep(d: Diagram, positions: Positions, g: Grid, routes: seq<seq<Cell>>,
                                         points: seq<seq<Point>>,
                                         cells: seq<Cell>, drawn: seq<Point>)
    requires AllRouted(d, positions, g, routes, points) && |routes| < |d.edges|
    requires EdgeRouted(d, positions, g, routes, |routes|, cells, drawn)
    ensures AllRouted(d, positions, g, routes + [cells], points + [drawn])
  {
    var routes', points' := routes + [cells], points + [drawn];
    forall k | 0 <= k < |routes'|
      ensures EdgeRouted(d, positions, g, routes'[..k], k, routes'[k], points'[k])
    {
      assert routes'[..k] == routes[..k];
      assert routes[..|routes|] == routes;
    }
  }

  /** Where edge `k` starts and ends on the grid. */
  function EdgeStart(d: Diagram, positions: Positions, k: nat): Cell
    requires k < |d.edges| && Known(d, positions, k)
  {
    var a := positions[d.edges[k].source];
    StartCell(a, PortY(d.edges, k, d.edges[k].source, a))
  }

  function EdgeFinish(d: Diagram, positions: Positions, k: nat): Cell
    requires k < |d.edges| && Known(d, positions, k)
  {
    var b := positions[d.edges[k].target];
    FinishCell(b, PortY(d.edges, k, d.edges[k].target, b))
  }

  /** Up the lane beside the source, along the band above all cards, down the lane beside the target. */
  function EdgeDetour(d: Diagram, positions: Positions, k: nat): seq<Cell>
    requires k < |d.edges| && Known(d, positions, k)
  {
    DetourRoute(EdgeStart(d, positions, k), EdgeFinish(d, positions, k))
  }

  /** Edge `k`'s detour stays below the sentinel even if every earlier edge crossed each of its
      segments twice. */
  predicate DetourFits(d: Diagram, positions: Positions, k: nat)
    requires k < |d.edges| && Known(d, positions, k)
  {
    DetourLength(EdgeStart(d, positions, k), EdgeFinish(d, positions, k)) * (1 + 60 * k) + 12 < SENTINEL
  }

  /** Small enough for the detour of any edge to fit. */
  predicate RoomFor(rows: int, edges: nat) {
    (2 * rows + 77) * (1 + 60 * edges) + 12 < SENTINEL
  }

  /** The grid rows a diagram's layout takes. */
  function LayoutRows(d: Diagram): int {
    (RowTop(Heights(d), RowCount(|d.nodes|)) + 72) / 12
  }

  lemma {:induction false} ProductMonotone(a: nat, b: nat, c: nat, e: nat)
    requires a <= b && c <= e
    ensures a * c <= b * e
  {
  }

  lemma {:induction false} LoadBound(d: Diagram, positions: Positions, g: Grid, routes: seq<seq<Cell>>,
                                     points: seq<seq<Point>>)
    requires AllRouted(d, positions, g, routes, points)
    ensures UsedAtMost(OccupiedBy(routes), 2 * |routes|)
  {
    forall s
      ensures UseCount(OccupiedBy(routes), s) <= 2 * |routes|
    {
      OccupiedCounts(routes, s);
      assert forall k :: 0 <= k < |routes| ==> EdgeRouted(d, positions, g, routes[..k], k, routes[k], points[k]);
      UseBound(routes, s);
    }
  }

  lemma {:induction false} EdgeTerminals(d: Diagram, positions: Positions, bottom: int, g: Grid, k: nat)
    requires CardsAligned(d, positions, bottom) && IsGridFor(g, positions, bottom)
    requires k < |d.edges| && Known(d, positions, k)
    ensures GoodTerminal(g, EdgeStart(d, positions, k)) && GoodTerminal(g, EdgeFinish(d, positions, k))
  {
    TerminalsFree(d, positions, bottom, g, k, d.edges[k].source);
    TerminalsFree(d, positions, bottom, g, k, d.edges[k].target);
  }

  lemma {:induction false} DetourBetween(d: Diagram, positions: Positions, bottom: int, g: Grid,
                                         occupied: Usage, k: nat, start: Cell, finish: Cell)
    requires CardsAligned(d, positions, bottom) && IsGridFor(g, positions, bottom)
    requires GoodTerminal(g, start) && GoodTerminal(g, finish) && UsedAtMost(occupied, 2 * k)
    ensures IsRoute(g, start, finish, DetourRoute(start, finish))
    ensures RouteCost(occupied, DetourRoute(start, finish)) <= DetourLength(start, finish) * (1 + 60 * k) + 12
  {
    DetourExists(d, positions, bottom, g, occupied, 2 * k, start, finish);
  }

  /** The detour of an edge is always a route, at a price bounded by its length and the weights. */
  lemma {:induction false} DetourServes(d: Diagram, positions: Positions, bottom: int, g: Grid, occupied: Usage, k: nat)
    requires CardsAligned(d, positions, bottom) && IsGridFor(g, positions, bottom)
    requires k < |d.edges| && Known(d, positions, k) && UsedAtMost(occupied, 2 * k)
    ensures IsRoute(g, EdgeStart(d, positions, k), EdgeFinish(d, positions, k), EdgeDetour(d, positions, k))
    ensures DetourFits(d, positions, k) ==> RouteCost(occupied, EdgeDetour(d, positions, k)) < SENTINEL
  {
    EdgeTerminals(d, positions, bottom, g, k);
    DetourBetween(d, positions, bottom, g, occupied, k, EdgeStart(d, positions, k), EdgeFinish(d, positions, k));
  }

  /** No edge of any diagram is blocked while its detour, at the weights the earlier edges left,
      stays below the sentinel; and that can be told in advance from its length and its place. */
  lemma {:induction false} NeverBlocked(d: Diagram, positions: Positions, bottom: int, g: Grid,
                                        routes: seq<seq<Cell>>, points: seq<seq<Point>>)
    requires CardsAligned(d, positions, bottom) && IsGridFor(g, positions, bottom)
    requires AllRouted(d, positions, g, routes, points) && |routes| < |d.edges| && Known(d, positions, |routes|)
    ensures EdgeBlocked(d, positions, g, routes, |routes|) ==>
              RouteCost(OccupiedBy(routes), EdgeDetour(d, positions, |routes|)) >= SENTINEL
    ensures EdgeBlocked(d, positions, g, routes, |routes|) ==> !DetourFits(d, positions, |routes|)
  {
    LoadBound(d, positions, g, routes, points);
    DetourServes(d, positions, bottom, g, OccupiedBy(routes), |routes|);
  }

  /** With room to route, the detour of every edge fits. */
  lemma {:induction false} RoomForDetours(d: Diagram, positions: Positions, bottom: int, g: Grid, k: nat)
    requires CardsAligned(d, positions, bottom) && IsGridFor(g, positions, bottom)
    requires k < |d.edges| && Known(d, positions, k) && RoomFor(g.rows, |d.edges|)
    ensures DetourFits(d, positions, k)
  {
    EdgeTerminals(d, positions, bottom, g, k);
    ProductMonotone(DetourLength(EdgeStart(d, positions, k), EdgeFinish(d, positions, k)), 2 * g.rows + 77,
                    1 + 60 * k, 1 + 60 * |d.edges|);
  }

  method CountEnds(edges: seq<Edge>, k: nat, used0: map<string, nat>) returns (used: map<string, nat>)
    requires k < |edges| && forall id :: Count(used0, id) == Degree(edges[..k], id)
    ensures forall id :: Count(used, id) == Degree(edges[..k + 1], id)
  {
    used := used0[edges[k].source := Count(used0, edges[k].source) + 1];
    used := used[edges[k].target := Count(used, edges[k].target) + 1];
    forall id
      ensures Count(used, id) == Degree(edges[..k + 1], id)
    {
      UsedAfter(edges, k, id);
    }
  }

  /** Routes the next edge and records its use of the grid. */
  method RouteNext(d: Diagram, positions: Positions, ghost bottom: int, g: Grid,
                   ghost routes: seq<seq<Cell>>, ghost points: seq<seq<Point>>, occupied0: Usage, k: nat, sy: int,
                   ty: int)
    returns (route: Option<seq<Cell>>, stroke: seq<Point>, occupied: Usage)
    requires CardsAligned(d, positions, bottom) && IsGridFor(g, positions, bottom)
    requires AllRouted(d, positions, g, routes, points) && |routes| == k < |d.edges|
    requires occupied0 == OccupiedBy(routes) && Known(d, positions, k)
    requires sy == PortY(d.edges, k, d.edges[k].source, positions[d.edges[k].source])
    requires ty == PortY(d.edges, k, d.edges[k].target, positions[d.edges[k].target])
    ensures route.Some? ==> AllRouted(d, positions, g, routes + [route.value], points + [stroke])
    ensures route.Some? ==> occupied == OccupiedBy(routes + [route.value])
    ensures route.None? ==> EdgeBlocked(d, positions, g, routes, k) && !DetourFits(d, positions, k)
  {
    route, stroke := RouteEdge(d, positions, g, routes, occupied0, k, sy, ty);
    occupied := occupied0;
    if route.None? {
      NeverBlocked(d, positions, bottom, g, routes, points);
    } else {
      AllRoutedStep(d, positions, g, routes, points, route.value, stroke);
      occupied := Occupy(occupied0, route.value);
      OccupiedStep(routes, route.value);
    }
  }

  /** The first `k` edges could be routed one after the other. */
  ghost predicate RoutedUpTo(d: Diagram, positions: Positions, g: Grid, k: nat) {
    exists routes, points :: AllRouted(d, positions, g, routes, points) && |routes| == k
  }

  /** They could, and then edge `k` has no affordable route, so not even a short enough detour. */
  ghost predicate BlockedAt(d: Diagram, positions: Positions, g: Grid, k: nat)
    requires k < |d.edges|
  {
    && Known(d, positions, k) && !DetourFits(d, positions, k)
    && exists routes, points ::
         AllRouted(d, positions, g, routes, points) && |routes| == k && EdgeBlocked(d, positions, g, routes, k)
  }

  /** The loop over edges, for cards already placed. */
  method RouteEdges(d: Diagram, positions: Positions, ghost bottom: int, g: Grid) returns (r: Routing)
    requires CardsAligned(d, positions, bottom) && IsGridFor(g, positions, bottom)
    ensures r.Routed? ==>
              && r.positions == positions && r.grid == g
              && AllRouted(d, positions, g, r.routes, r.points) && |r.routes| == |d.edges|
    ensures r.NoClearRoute? ==> r.edge < |d.edges| && BlockedAt(d, positions, g, r.edge)
    ensures r.UnknownNode? ==> r.edge < |d.edges| && RoutedUpTo(d, positions, g, r.edge) && !Known(d, positions, r.edge)
  {
    var occupied: Usage := map[];
    var used: map<string, nat> := map[];
    var routes, points := [], [];
    for k := 0 to |d.edges|
      invariant |routes| == k && AllRouted(d, positions, g, routes, points)
      invariant occupied == OccupiedBy(routes)
      invariant forall id :: Count(used, id) == Degree(d.edges[..k], id)
    {
      var e := d.edges[k];
      if e.source !in positions || e.target !in positions {
        return UnknownNode(k);
      }
      used := CountEnds(d.edges, k, used);
      var sy := positions[e.source].y + 24 + Count(used, e.source) * 12;
      var ty := positions[e.target].y + 24 + Count(used, e.target) * 12;
      var route, stroke;
      route, stroke, occupied := RouteNext(d, positions, bottom, g, routes, points, occupied, k, sy, ty);
      if route.None? {
        return NoClearRoute(k);
      }
      routes, points := routes + [route.value], points + [stroke];
    }
    return Routed(positions, g, routes, points);
  }

  /** `id` is the name of some node. */
  ghost predicate IsNode(d: Diagram, id: string) {
    exists k :: 0 <= k < |d.nodes| && d.nodes[k].id == id
  }

  /** The nodes an edge names are the ones that were placed. */
  ghost predicate NamesNodes(d: Diagram, k: nat)
    requires k < |d.edges|
  {
    IsNode(d, d.edges[k].source) && IsNode(d, d.edges[k].target)
  }

  lemma {:induction false} KnownNodes(d: Diagram, cards: seq<Rect>, positions: Positions, k: nat)
    requires |cards| == |d.nodes| && Placed(d.nodes, cards, |d.nodes|, positions) && k < |d.edges|
    ensures Known(d, positions, k) <==> NamesNodes(d, k)
  {
  }

  lemma {:induction false} RoutedNamesNodes(d: Diagram, cards: seq<Rect>, positions: Positions, g: Grid,
                                            routes: seq<seq<Cell>>, points: seq<seq<Point>>)
    requires |cards| == |d.nodes| && Placed(d.nodes, cards, |d.nodes|, positions)
    requires AllRouted(d, positions, g, routes, points)
    ensures forall k :: 0 <= k < |routes| ==> NamesNodes(d, k)
  {
    forall k | 0 <= k < |routes|
      ensures NamesNodes(d, k)
    {
      assert EdgeRouted(d, positions, g, routes[..k], k, routes[k], points[k]);
      KnownNodes(d, cards, positions, k);
    }
  }

  /** A layout of the diagram: placed cards, their clearance grid, and routes for the first edges. */
  ghost predicate IsLayout(d: Diagram, positions: Positions, g: Grid, routes: seq<seq<Cell>>, points: seq<seq<Point>>) {
    && Placed(d.nodes, Cards(d), |d.nodes|, positions)
    && IsGridFor(g, positions, RowTop(Heights(d), RowCount(|d.nodes|)))
    && AllRouted(d, positions, g, routes, points)
  }

  /** Routing stopped because edge `k`, and no earlier one, has no affordable route. */
  ghost predicate StopsAt(d: Diagram, k: nat)
    requires k < |d.edges|
  {
    exists positions, g ::
      && Placed(d.nodes, Cards(d), |d.nodes|, positions)
      && IsGridFor(g, positions, RowTop(Heights(d), RowCount(|d.nodes|)))
      && BlockedAt(d, positions, g, k)
  }

  method GridLayout(d: Diagram) returns (r: Routing)
    ensures r.Routed? ==>
              && IsLayout(d, r.positions, r.grid, r.routes, r.points) && |r.routes| == |d.edges|
              && forall k :: 0 <= k < |d.edges| ==> NamesNodes(d, k)
    ensures r.NoClearRoute? ==> r.edge < |d.edges| && StopsAt(d, r.edge) && !RoomFor(LayoutRows(d), |d.edges|)
    ensures r.UnknownNode? ==>
              && r.edge < |d.edges| && !NamesNodes(d, r.edge)
              && forall k :: 0 <= k < r.edge ==> NamesNodes(d, k)
  {
    var positions, bottom := PlaceNodes(d);
    PlacedCards(d, positions, bottom);
    var blocked := Block(positions);
    var g := Grid(124, (bottom + 72) / 12, blocked);
    assert g.rows == LayoutRows(d);
    r := RouteEdges(d, positions, bottom, g);
    if r.Routed? {
      RoutedNamesNodes(d, Cards(d), positions, g, r.routes, r.points);
    }
    if r.NoClearRoute? && RoomFor(g.rows, |d.edges|) {
      RoomForDetours(d, positions, bottom, g, r.edge);
    }
    if r.UnknownNode? {
      KnownNodes(d, Cards(d), positions, r.edge);
      ghost var routes, points :| AllRouted(d, positions, g, routes, points) && |routes| == r.edge;
      RoutedNamesNodes(d, Cards(d), positions, g, routes, points);
    }
  }
}
