/** Decision nodes are drawn as diamonds inside their cards; strokes that meet one are drawn on to
    the diamond's outline. Pixel arithmetic is over the reals, rounded as the program rounds. */
module Diamonds {
  import opened Layout
  import opened Polyline

  // ----- which ends meet a diamond -----

  /** The first node of this name, or the number of nodes. */
  function FirstNamed(nodes: seq<Node>, id: string): (k: nat)
    ensures k <= |nodes| && (k < |nodes| ==> nodes[k].id == id)
    ensures forall j :: 0 <= j < k ==> nodes[j].id != id
  {
    if nodes == [] || nodes[0].id == id then 0 else 1 + FirstNamed(nodes[1..], id)
  }

  predicate MeetsDecision(d: Diagram, id: string) {
    var k := FirstNamed(d.nodes, id);
    k < |d.nodes| && IsDecision(d, k)
  }

  /** An end meets a diamond exactly when the diagram is a flowchart and the first node of its name asks
      a question. */
  lemma {:induction false} MeetsDecisionIff(d: Diagram, id: string)
    ensures MeetsDecision(d, id) <==>
              d.flowchart && exists k :: 0 <= k < |d.nodes| && d.nodes[k].id == id && d.nodes[k].question
                                         && forall j :: 0 <= j < k ==> d.nodes[j].id != id
  {
    var first := FirstNamed(d.nodes, id);
    forall k | 0 <= k < |d.nodes| && d.nodes[k].id == id && forall j :: 0 <= j < k ==> d.nodes[j].id != id
      ensures k == first
    {
    }
  }

  // ----- the outline -----

  /** To the nearest integer, halves to the even one. */
  function Round(x: real): (n: int)
    ensures x - 0.5 <= n as real <= x + 0.5
    ensures n as real == x - 0.5 || n as real == x + 0.5 ==> n % 2 == 0
  {
    var part := x - x.Floor as real;
    if part < 0.5 || (part == 0.5 && x.Floor % 2 == 0) then x.Floor else x.Floor + 1
  }

  function AbsReal(x: real): real {
    if x < 0.0 then -x else x
  }

  /** How far inside the card's sides the outline is at a height; cards are never flat. */
  function Inset(r: Rect, y: real): real {
    if r.height <= 0 then 0.0
    else AbsReal(y - (r.y as real + r.height as real / 2.0)) * r.width as real / r.height as real
  }

  /** On the diamond whose corners are the middles of the card's sides. */
  ghost predicate OnDiamond(r: Rect, s: Spot) {
    var w, h := r.width as real, r.height as real;
    AbsReal(2.0 * s.x - 2.0 * r.x as real - w) * h + AbsReal(2.0 * s.y - 2.0 * r.y as real - h) * w == w * h
  }

  lemma {:induction false} Divided(m: real, w: real, h: real)
    requires m >= 0.0 && w > 0.0 && h > 0.0 && 2.0 * m <= h
    ensures m * w / h * h == m * w && 0.0 <= m * w / h && 2.0 * (m * w / h) <= w
  {
    assert 2.0 * m * w <= h * w;
  }

  /** Going in by the inset from either side, at any height of the card, ends on the outline, and not
      beyond the middle. */
  lemma {:induction false} OutlineAt(r: Rect, y: real)
    requires r.width > 0 && r.height > 0 && r.y as real <= y <= (r.y + r.height) as real
    ensures 0.0 <= Inset(r, y) && 2.0 * Inset(r, y) <= r.width as real
    ensures OnDiamond(r, Spot((r.x + r.width) as real - Inset(r, y), y))
    ensures OnDiamond(r, Spot(r.x as real + Inset(r, y), y))
  {
    var w, h := r.width as real, r.height as real;
    var m := AbsReal(y - (r.y as real + h / 2.0));
    Divided(m, w, h);
    var q := m * w / h;
    assert Inset(r, y) == q;
    assert AbsReal(2.0 * y - 2.0 * r.y as real - h) == 2.0 * m;
    assert (w - 2.0 * q) * h + 2.0 * m * w == w * h;
  }

  // ----- drawing the ends on -----

  function RightEnd(r: Rect, p: Point): Point {
    Point(Round((r.x + r.width) as real - Inset(r, p.y as real)), p.y)
  }

  function LeftEnd(r: Rect, p: Point): Point {
    Point(Round(r.x as real + Inset(r, p.y as real)), p.y)
  }

  /** The stroke with its ends drawn on to the diamonds they meet. */
  function Adjusted(points: seq<Point>, a: Rect, fromDecision: bool, b: Rect, toDecision: bool): seq<Point>
    requires |points| >= 2
  {
    var n := |points| - 1;
    [if fromDecision then RightEnd(a, points[0]) else points[0]] + points[1..n]
    + [if toDecision then LeftEnd(b, points[n]) else points[n]]
  }

  method AdjustEnds(points: seq<Point>, a: Rect, fromDecision: bool, b: Rect, toDecision: bool)
    returns (adjusted: seq<Point>)
    requires |points| >= 2
    ensures adjusted == Adjusted(points, a, fromDecision, b, toDecision)
  {
    adjusted := points;
    if fromDecision {
      adjusted := adjusted[0 := RightEnd(a, adjusted[0])];
    }
    var n := |points| - 1;
    if toDecision {
      adjusted := adjusted[n := LeftEnd(b, adjusted[n])];
    }
  }

  /** Where a stroke may leave a card: on the right side, or within half a pixel of the right half of
      the diamond's outline. */
  ghost predicate StartsAt(r: Rect, decision: bool, p: Point) {
    && r.y < p.y < r.y + r.height
    && if decision then
         exists o :: OnDiamond(r, o) && o.y == p.y as real && r.x as real + r.width as real / 2.0 <= o.x
                     && p.x as real - 0.5 <= o.x <= p.x as real + 0.5
       else p.x == r.x + r.width
  }

  ghost predicate EndsAt(r: Rect, decision: bool, p: Point) {
    && r.y < p.y < r.y + r.height
    && if decision then
         exists o :: OnDiamond(r, o) && o.y == p.y as real && o.x <= r.x as real + r.width as real / 2.0
                     && p.x as real - 0.5 <= o.x <= p.x as real + 0.5
       else p.x == r.x
  }

  lemma {:induction false} RightEndOnOutline(r: Rect, p: Point)
    requires r.width > 0 && r.height > 0 && r.y < p.y < r.y + r.height
    ensures StartsAt(r, true, RightEnd(r, p))
  {
    OutlineAt(r, p.y as real);
    var x := (r.x + r.width) as real - Inset(r, p.y as real);
    assert OnDiamond(r, Spot(x, p.y as real));
  }

  lemma {:induction false} LeftEndOnOutline(r: Rect, p: Point)
    requires r.width > 0 && r.height > 0 && r.y < p.y < r.y + r.height
    ensures EndsAt(r, true, LeftEnd(r, p))
  {
    OutlineAt(r, p.y as real);
    var x := r.x as real + Inset(r, p.y as real);
    assert OnDiamond(r, Spot(x, p.y as real));
  }

  /** A place between the outline, give or take the rounding, and the right side of the card. */
  ghost predicate OnRightEntry(r: Rect, s: Spot) {
    && r.y as real < s.y < (r.y + r.height) as real
    && (r.x + r.width) as real - Inset(r, s.y) - 0.5 <= s.x <= (r.x + r.width) as real
  }

  ghost predicate OnLeftEntry(r: Rect, s: Spot) {
    && r.y as real < s.y < (r.y + r.height) as real
    && r.x as real <= s.x <= r.x as real + Inset(r, s.y) + 0.5
  }

  /** Between a side and the rounded outline, a place is no deeper than half a pixel past the outline. */
  lemma {:induction false} BeforeRight(side: int, inset: real, t: real)
    requires 0.0 <= inset && Within(Round(side as real - inset), t, side)
    ensures side as real - inset - 0.5 <= t <= side as real
  {
    assert Round(side as real - inset) as real <= side as real + 0.5;
    assert Round(side as real - inset) <= side;
  }

  lemma {:induction false} BeforeLeft(side: int, inset: real, t: real)
    requires 0.0 <= inset && Within(side, t, Round(side as real + inset))
    ensures side as real <= t <= side as real + inset + 0.5
  {
    assert Round(side as real + inset) as real >= side as real - 0.5;
    assert Round(side as real + inset) >= side;
  }

  lemma {:induction false} LevelSpot(s: Spot, p: Point, q: Point)
    requires OnSegment(s, p, q) && p.y == q.y
    ensures s.y == p.y as real && Within(p.x, s.x, q.x)
  {
  }

  lemma {:induction false} RightEntry(r: Rect, p: Point, s: Spot)
    requires r.width > 0 && r.height > 0 && p.x == r.x + r.width && r.y < p.y < r.y + r.height
    requires OnSegment(s, RightEnd(r, p), p)
    ensures OnRightEntry(r, s)
  {
    var inset := Inset(r, p.y as real);
    OutlineAt(r, p.y as real);
    LevelSpot(s, RightEnd(r, p), p);
    BeforeRight(r.x + r.width, inset, s.x);
  }

  lemma {:induction false} LeftEntry(r: Rect, p: Point, s: Spot)
    requires r.width > 0 && r.height > 0 && p.x == r.x && r.y < p.y < r.y + r.height
    requires OnSegment(s, p, LeftEnd(r, p))
    ensures OnLeftEntry(r, s)
  {
    var inset := Inset(r, p.y as real);
    OutlineAt(r, p.y as real);
    LevelSpot(s, p, LeftEnd(r, p));
    BeforeLeft(r.x, inset, s.x);
  }

  /** Moving the ends along the level adds nothing to the stroke but the way they moved. */
  lemma {:induction false} MovedEnds(points: seq<Point>, moved: seq<Point>, s: Spot)
    requires |points| == |moved| >= 2
    requires forall i :: 0 < i < |points| - 1 ==> moved[i] == points[i]
    requires moved[0].y == points[0].y == points[1].y
    requires var n := |points| - 1; moved[n].y == points[n].y == points[n - 1].y
    requires OnPolyline(s, moved)
    ensures var n := |points| - 1;
            OnPolyline(s, points) || OnSegment(s, moved[0], points[0]) || OnSegment(s, points[n], moved[n])
  {
    var n := |points| - 1;
    var i :| 0 <= i < n && OnSegment(s, moved[i], moved[i + 1]);
    assert || OnSegment(s, points[i], points[i + 1])
           || OnSegment(s, moved[0], points[0]) || OnSegment(s, points[n], moved[n]);
  }

  lemma {:induction false} MovedAxisParallel(points: seq<Point>, moved: seq<Point>)
    requires |points| == |moved| >= 2 && AxisParallel(points)
    requires forall i :: 0 < i < |points| - 1 ==> moved[i] == points[i]
    requires moved[0].y == points[0].y == points[1].y
    requires var n := |points| - 1; moved[n].y == points[n].y == points[n - 1].y
    ensures AxisParallel(moved)
  {
    forall i | 0 <= i < |moved| - 1
      ensures moved[i].x == moved[i + 1].x || moved[i].y == moved[i + 1].y
    {
      assert points[i].x == points[i + 1].x || points[i].y == points[i + 1].y;
    }
  }
}
