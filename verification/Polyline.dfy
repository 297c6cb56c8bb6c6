/** Drawn polylines in pixels, and dropping the points that lie between collinear neighbours. */
module Polyline {

  datatype Point = Point(x: int, y: int)

  /** Any place on the drawing, not only whole pixels. */
  datatype Spot = Spot(x: real, y: real)

  ghost predicate Within(a: int, v: real, b: int) {
    (a as real <= v <= b as real) || (b as real <= v <= a as real)
  }

  /** Lies on the axis-parallel segment from `a` to `b`. */
  ghost predicate OnSegment(s: Spot, a: Point, b: Point) {
    Within(a.x, s.x, b.x) && Within(a.y, s.y, b.y)
  }

  ghost predicate OnPolyline(s: Spot, points: seq<Point>) {
    exists i :: 0 <= i < |points| - 1 && OnSegment(s, points[i], points[i + 1])
  }

  ghost predicate AxisParallel(points: seq<Point>) {
    forall i :: 0 <= i < |points| - 1 ==> points[i].x == points[i + 1].x || points[i].y == points[i + 1].y
  }

  ghost predicate Advances(points: seq<Point>) {
    forall i :: 0 <= i < |points| - 1 ==> points[i] != points[i + 1]
  }

  /** The point shares an abscissa, or an ordinate, with both of its neighbours. */
  predicate Redundant(points: seq<Point>, i: int)
    requires 0 < i < |points| - 1
  {
    || points[i - 1].x == points[i].x == points[i + 1].x
    || points[i - 1].y == points[i].y == points[i + 1].y
  }

  /** The points kept among the first `n`: the first one and every bend. */
  function Kept(points: seq<Point>, n: nat): (kept: seq<Point>)
    requires 1 <= n < |points|
    ensures |kept| >= 1
  {
    if n == 1 then [points[0]]
    else Kept(points, n - 1) + (if Redundant(points, n - 1) then [] else [points[n - 1]])
  }

  function Simplified(points: seq<Point>): seq<Point>
    requires |points| >= 2
  {
    Kept(points, |points| - 1) + [points[|points| - 1]]
  }

  method Simplify(points: seq<Point>) returns (simplified: seq<Point>)
    requires |points| >= 2
    ensures simplified == Simplified(points)
  {
    simplified := [points[0]];
    for index := 1 to |points| - 1
      invariant simplified == Kept(points, index)
    {
      var a, b, c := points[index - 1], points[index], points[index + 1];
      if !((a.x == b.x == c.x) || (a.y == b.y == c.y)) {
        simplified := simplified + [b];
      }
    }
    simplified := simplified + [points[|points| - 1]];
  }

  /** `at` lists, in order, where the points of `drawn` stand among the first `n` of `points`: at
      the start and at every corner, and nowhere else. */
  ghost predicate CornersAt(points: seq<Point>, n: nat, drawn: seq<Point>, at: seq<nat>) {
    && 1 <= n < |points| && |at| == |drawn| >= 1 && at[0] == 0
    && (forall j :: 0 <= j < |at| ==> at[j] < n && drawn[j] == points[at[j]])
    && (forall i, j :: 0 <= i < j < |at| ==> at[i] < at[j])
    && (forall i :: 0 < i < n ==> (i in at <==> !Redundant(points, i)))
  }

  lemma {:induction false} OneCornerMore(points: seq<Point>, n: nat, drawn: seq<Point>, at: seq<nat>)
    requires CornersAt(points, n, drawn, at) && n + 1 < |points| && !Redundant(points, n)
    ensures CornersAt(points, n + 1, drawn + [points[n]], at + [n])
  {
    var at' := at + [n];
    forall i | 0 < i < n + 1
      ensures i in at' <==> !Redundant(points, i)
    {
      assert i in at' <==> i in at || i == n;
    }
  }

  lemma {:induction false} NoCornerMore(points: seq<Point>, n: nat, drawn: seq<Point>, at: seq<nat>)
    requires CornersAt(points, n, drawn, at) && n + 1 < |points| && Redundant(points, n)
    ensures CornersAt(points, n + 1, drawn, at)
  {
    assert n !in at;
  }

  lemma {:induction false} KeptCorners(points: seq<Point>, n: nat) returns (at: seq<nat>)
    requires 1 <= n < |points|
    ensures CornersAt(points, n, Kept(points, n), at)
  {
    if n == 1 {
      at := [0];
    } else {
      at := KeptCorners(points, n - 1);
      if Redundant(points, n - 1) {
        NoCornerMore(points, n - 1, Kept(points, n - 1), at);
      } else {
        OneCornerMore(points, n - 1, Kept(points, n - 1), at);
        at := at + [n - 1];
      }
    }
  }

  /** Simplification keeps both ends and every corner, in order, and nothing else. */
  lemma {:induction false} SimplifiedCorners(points: seq<Point>) returns (at: seq<nat>)
    requires |points| >= 2
    ensures Simplified(points)[|Simplified(points)| - 1] == points[|points| - 1]
    ensures CornersAt(points, |points| - 1, Simplified(points)[..|Simplified(points)| - 1], at)
  {
    at := KeptCorners(points, |points| - 1);
    assert Simplified(points)[..|Simplified(points)| - 1] == Kept(points, |points| - 1);
  }

  /** Everything strictly between `j` and `k` was dropped. */
  ghost predicate Run(points: seq<Point>, j: nat, k: nat) {
    j < k < |points| && forall i :: j < i < k ==> Redundant(points, i)
  }

  /** A run stays on one line: distinct neighbours fix the axis. */
  lemma {:induction false} RunStraight(points: seq<Point>, j: nat, k: nat)
    requires AxisParallel(points) && Advances(points) && Run(points, j, k)
    ensures || (forall i :: j <= i <= k ==> points[i].x == points[j].x)
            || (forall i :: j <= i <= k ==> points[i].y == points[j].y)
    decreases k
  {
    if j + 1 < k {
      RunStraight(points, j, k - 1);
      assert Redundant(points, k - 1);
      assert points[k - 2] != points[k - 1];
    }
  }

  /** The straight stroke replacing a run covers only places the run already covered. */
  lemma {:induction false} RunCovers(points: seq<Point>, j: nat, k: nat, s: Spot) returns (i: nat)
    requires j < k < |points|
    requires || (forall i :: j <= i <= k ==> points[i].x == points[j].x)
             || (forall i :: j <= i <= k ==> points[i].y == points[j].y)
    requires OnSegment(s, points[j], points[k])
    ensures j <= i < k && OnSegment(s, points[i], points[i + 1])
    decreases k
  {
    if OnSegment(s, points[k - 1], points[k]) {
      i := k - 1;
    } else {
      i := RunCovers(points, j, k - 1, s);
    }
  }

  /** The index of the last point kept among the first `n`. */
  ghost function LastKept(points: seq<Point>, n: nat): (j: nat)
    requires 1 <= n < |points|
    ensures j < n
    ensures forall i :: j < i < n ==> Redundant(points, i)
  {
    if n == 1 then 0 else if Redundant(points, n - 1) then LastKept(points, n - 1) else n - 1
  }

  /** `simplified` draws nothing outside `points` and ends at the same two places. */
  ghost predicate DrawsInside(simplified: seq<Point>, points: seq<Point>) {
    && |simplified| >= 1 && |points| >= 1
    && simplified[0] == points[0]
    && AxisParallel(simplified)
    && forall s :: OnPolyline(s, simplified) ==> OnPolyline(s, points)
  }

  lemma {:induction false} ExtendInside(points: seq<Point>, drawn: seq<Point>, j: nat, k: nat)
    requires AxisParallel(points) && Advances(points) && Run(points, j, k)
    requires DrawsInside(drawn, points) && drawn[|drawn| - 1] == points[j]
    ensures DrawsInside(drawn + [points[k]], points)
  {
    var longer := drawn + [points[k]];
    RunStraight(points, j, k);
    forall s | OnPolyline(s, longer)
      ensures OnPolyline(s, points)
    {
      var i :| 0 <= i < |longer| - 1 && OnSegment(s, longer[i], longer[i + 1]);
      if i == |drawn| - 1 {
        var m := RunCovers(points, j, k, s);
      } else {
        assert OnSegment(s, drawn[i], drawn[i + 1]);
      }
    }
  }

  lemma {:induction false} KeptInside(points: seq<Point>, n: nat)
    requires AxisParallel(points) && Advances(points) && 1 <= n < |points|
    ensures DrawsInside(Kept(points, n), points)
    ensures Kept(points, n)[|Kept(points, n)| - 1] == points[LastKept(points, n)]
  {
    if n > 1 {
      KeptInside(points, n - 1);
      if !Redundant(points, n - 1) {
        ExtendInside(points, Kept(points, n - 1), LastKept(points, n - 1), n - 1);
      }
    }
  }

  /** Simplification keeps both ends, stays axis-parallel and never leaves the original stroke. */
  lemma {:induction false} SimplifiedInside(points: seq<Point>)
    requires |points| >= 2 && AxisParallel(points) && Advances(points)
    ensures DrawsInside(Simplified(points), points)
    ensures Simplified(points)[|Simplified(points)| - 1] == points[|points| - 1]
  {
    var n := |points| - 1;
    KeptInside(points, n);
    ExtendInside(points, Kept(points, n), LastKept(points, n), n);
  }

  /** A stroke that starts out level still does when simplified. */
  lemma {:induction false} FirstPieceLevel(points: seq<Point>)
    requires |points| >= 2 && AxisParallel(points) && Advances(points) && points[0].y == points[1].y
    ensures |Simplified(points)| >= 2 && Simplified(points)[1].y == points[0].y
  {
    var n := |points| - 1;
    var at := KeptCorners(points, n);
    var m := if |at| > 1 then at[1] else n;
    forall i | 0 < i < m
      ensures Redundant(points, i)
    {
      assert i !in at;
    }
    RunStraight(points, 0, m);
  }

  /** And one that ends level. */
  lemma {:induction false} LastPieceLevel(points: seq<Point>)
    requires |points| >= 2 && AxisParallel(points) && Advances(points)
    requires points[|points| - 2].y == points[|points| - 1].y
    ensures |Simplified(points)| >= 2
    ensures Simplified(points)[|Simplified(points)| - 2].y == points[|points| - 1].y
  {
    var n := |points| - 1;
    KeptInside(points, n);
    RunStraight(points, LastKept(points, n), n);
  }

  /** The ends of piece `j` of a simplified stroke, as places on the stroke. */
  ghost predicate PieceRuns(points: seq<Point>, at: seq<nat>, j: nat) {
    j + 1 < |at| && at[j] < at[j + 1] < |points| && Run(points, at[j], at[j + 1])
  }

  lemma {:induction false} RunIsLevelOrUpright(points: seq<Point>, j: nat, k: nat)
    requires AxisParallel(points) && Advances(points) && Run(points, j, k)
    ensures points[j].y == points[j + 1].y <==> points[k - 1].y == points[k].y
    ensures points[j].y == points[j + 1].y ==> points[j].y == points[k].y
    ensures points[j].y != points[j + 1].y ==> points[j].x == points[k].x
  {
    RunStraight(points, j, k);
    assert points[j] != points[j + 1] && points[k - 1] != points[k];
  }

  /** Where a simplified stroke's points stand on the stroke, its end included. */
  lemma {:induction false} SimplifiedPlaces(points: seq<Point>) returns (at: seq<nat>)
    requires |points| >= 2
    ensures |at| == |Simplified(points)|
    ensures forall j :: 0 <= j < |at| ==> at[j] < |points| && Simplified(points)[j] == points[at[j]]
    ensures forall j: nat :: j + 1 < |at| ==> PieceRuns(points, at, j)
    ensures forall j :: 0 < j < |at| - 1 ==> 0 < at[j] < |points| - 1 && !Redundant(points, at[j])
  {
    var n := |points| - 1;
    var corners := KeptCorners(points, n);
    at := corners + [n];
    assert forall j :: 0 <= j < |corners| ==> at[j] == corners[j];
    forall j: nat | j + 1 < |at|
      ensures PieceRuns(points, at, j)
    {
      forall i | at[j] < i < at[j + 1]
        ensures Redundant(points, i)
      {
        NoCornerBetween(points, n, Kept(points, n), corners, j, i);
      }
    }
    forall j | 0 < j < |at| - 1
      ensures 0 < at[j] < n && !Redundant(points, at[j])
    {
      assert corners[0] < corners[j] && corners[j] in corners;
    }
  }

  lemma {:induction false} NoCornerBetween(points: seq<Point>, n: nat, drawn: seq<Point>, corners: seq<nat>,
                                           j: nat, i: nat)
    requires CornersAt(points, n, drawn, corners) && j < |corners| && corners[j] < i < n
    requires j + 1 < |corners| ==> i < corners[j + 1]
    ensures Redundant(points, i)
  {
    forall m | 0 <= m < |corners|
      ensures corners[m] != i
    {
    }
  }

  /** The pieces of a simplified axis-parallel stroke alternate: where one is level the next is upright. */
  lemma {:induction false} PiecesAlternate(points: seq<Point>, j: nat)
    requires |points| >= 2 && AxisParallel(points) && Advances(points) && 0 < j < |Simplified(points)| - 1
    ensures var s := Simplified(points);
            || (s[j - 1].y == s[j].y && s[j].x == s[j + 1].x)
            || (s[j - 1].x == s[j].x && s[j].y == s[j + 1].y)
  {
    var at := SimplifiedPlaces(points);
    assert PieceRuns(points, at, j - 1) && PieceRuns(points, at, j);
    RunIsLevelOrUpright(points, at[j - 1], at[j]);
    RunIsLevelOrUpright(points, at[j], at[j + 1]);
    var c := at[j];
    assert !Redundant(points, c);
    assert points[c - 1] != points[c] && points[c] != points[c + 1];
  }
}
