/** Checking that analysis windows cover a file. Seconds are real numbers. */
module CoverageSweep {

  datatype Window = Window(start: real, stop: real)

  datatype Problem = TooFew | GapBefore(start: real) | InvalidSpan | Incomplete

  /** The order windows are sorted by. */
  predicate Ahead(a: Window, b: Window) {
    a.start < b.start || (a.start == b.start && a.stop <= b.stop)
  }

  ghost predicate Sorted(rows: seq<Window>) {
    forall i, j :: 0 <= i < j < |rows| ==> Ahead(rows[i], rows[j])
  }

  function Insert(rows: seq<Window>, w: Window): seq<Window> {
    if rows == [] || Ahead(w, rows[0]) then [w] + rows else [rows[0]] + Insert(rows[1..], w)
  }

  function Sort(windows: seq<Window>): seq<Window> {
    if windows == [] then [] else Insert(Sort(windows[1..]), windows[0])
  }

  lemma {:induction false} InsertSorted(rows: seq<Window>, w: Window)
    requires Sorted(rows)
    ensures Sorted(Insert(rows, w)) && multiset(Insert(rows, w)) == multiset(rows) + multiset{w}
  {
    if rows != [] && !Ahead(w, rows[0]) {
      var rest := Insert(rows[1..], w);
      InsertSorted(rows[1..], w);
      assert rows == [rows[0]] + rows[1..];
      forall i | 0 <= i < |rest|
        ensures Ahead(rows[0], rest[i])
      {
        assert rest[i] in multiset(rest);
        assert rest[i] in rows[1..] || rest[i] == w;
      }
    }
  }

  lemma {:induction false} SortSorts(windows: seq<Window>)
    ensures Sorted(Sort(windows)) && multiset(Sort(windows)) == multiset(windows)
    ensures |Sort(windows)| == |windows|
  {
    if windows != [] {
      SortSorts(windows[1..]);
      InsertSorted(Sort(windows[1..]), windows[0]);
      assert windows == [windows[0]] + windows[1..];
    }
  }

  /** There is only one way to sort the same windows. */
  lemma {:induction false} SortedUnique(a: seq<Window>, b: seq<Window>)
    requires Sorted(a) && Sorted(b) && multiset(a) == multiset(b)
    ensures a == b
  {
    if a == [] {
      assert |multiset(b)| == 0;
    } else {
      assert a[0] in multiset(b) && |b| > 0;
      assert b[0] in multiset(a);
      assert Ahead(a[0], b[0]) && Ahead(b[0], a[0]);
      assert a == [a[0]] + a[1..] && b == [b[0]] + b[1..];
      assert multiset(a[1..]) == multiset(a) - multiset{a[0]};
      assert multiset(b[1..]) == multiset(b) - multiset{b[0]};
      SortedUnique(a[1..], b[1..]);
    }
  }

  /** How far the first `n` windows reach, starting from zero. */
  function Reach(rows: seq<Window>, n: nat): real
    requires n <= |rows|
  {
    if n == 0 then 0.0
    else if rows[n - 1].stop > Reach(rows, n - 1) then rows[n - 1].stop else Reach(rows, n - 1)
  }

  predicate Gap(rows: seq<Window>, i: nat)
    requires i < |rows|
  {
    rows[i].start > Reach(rows, i) + 1.0
  }

  predicate BadSpan(w: Window, maxSec: real) {
    w.stop <= w.start || w.stop - w.start > maxSec + 1.0
  }

  /** The problems a sorted list has, in the order they are found. */
  function Problems(rows: seq<Window>, expectedCount: nat, maxSec: real, requiredEnd: real, n: nat): seq<Problem>
    requires n <= |rows|
  {
    if n == 0 then (if |rows| < expectedCount then [TooFew] else [])
    else Problems(rows, expectedCount, maxSec, requiredEnd, n - 1)
         + (if Gap(rows, n - 1) then [GapBefore(rows[n - 1].start)] else [])
         + (if BadSpan(rows[n - 1], maxSec) then [InvalidSpan] else [])
  }

  function AllProblems(rows: seq<Window>, expectedCount: nat, maxSec: real, requiredEnd: real): seq<Problem> {
    Problems(rows, expectedCount, maxSec, requiredEnd, |rows|)
    + (if rows == [] || rows[0].start > 1.0 || Reach(rows, |rows|) < requiredEnd - 1.0 then [Incomplete] else [])
  }

  /** The sweep over one tier's windows. */
  method Coverage(windows: seq<Window>, expectedCount: nat, maxSec: real, requiredEnd: real)
    returns (problems: seq<Problem>)
    ensures problems == AllProblems(Sort(windows), expectedCount, maxSec, requiredEnd)
  {
    problems := [];
    var rows := Sort(windows);
    if |rows| < expectedCount {
      problems := problems + [TooFew];
    }
    var end := 0.0;
    for i := 0 to |rows|
      invariant end == Reach(rows, i)
      invariant problems == Problems(rows, expectedCount, maxSec, requiredEnd, i)
    {
      if rows[i].start > end + 1.0 {
        problems := problems + [GapBefore(rows[i].start)];
      }
      if rows[i].stop <= rows[i].start || rows[i].stop - rows[i].start > maxSec + 1.0 {
        problems := problems + [InvalidSpan];
      }
      end := if rows[i].stop > end then rows[i].stop else end;
    }
    if rows == [] || rows[0].start > 1.0 || end < requiredEnd - 1.0 {
      problems := problems + [Incomplete];
    }
  }

  /** The verdict does not depend on the order the windows arrive in. */
  lemma {:induction false} OrderIrrelevant(a: seq<Window>, b: seq<Window>, expectedCount: nat, maxSec: real,
                                           requiredEnd: real)
    requires multiset(a) == multiset(b)
    ensures AllProblems(Sort(a), expectedCount, maxSec, requiredEnd)
            == AllProblems(Sort(b), expectedCount, maxSec, requiredEnd)
  {
    SortSorts(a);
    SortSorts(b);
    SortedUnique(Sort(a), Sort(b));
  }

  lemma {:induction false} NoProblemAt(rows: seq<Window>, expectedCount: nat, maxSec: real, requiredEnd: real,
                                       n: nat, i: nat)
    requires i < n <= |rows| && Problems(rows, expectedCount, maxSec, requiredEnd, n) == []
    ensures !Gap(rows, i) && !BadSpan(rows[i], maxSec)
    decreases n
  {
    if i < n - 1 {
      NoProblemAt(rows, expectedCount, maxSec, requiredEnd, n - 1, i);
    }
  }

  /** The first window reaching past `a` starts within a second of what was reached before it. */
  lemma {:induction false} FirstPast(rows: seq<Window>, a: real, n: nat) returns (i: nat)
    requires n <= |rows| && 0.0 <= a < Reach(rows, n)
    ensures i < n && Reach(rows, i) <= a < rows[i].stop
  {
    if Reach(rows, n - 1) > a {
      i := FirstPast(rows, a, n - 1);
    } else {
      i := n - 1;
    }
  }

  /** Some window overlaps the stretch from `a` to `b`. */
  ghost predicate Touched(windows: seq<Window>, a: real, b: real) {
    exists w :: w in windows && w.start < b && a < w.stop
  }

  lemma {:induction false} SortMembers(windows: seq<Window>, w: Window)
    ensures w in Sort(windows) <==> w in windows
  {
    SortSorts(windows);
    assert w in Sort(windows) <==> w in multiset(Sort(windows));
    assert w in windows <==> w in multiset(windows);
  }

  /** A stretch the sweep answers for: longer than a second, and before the required end or
      before the start of some window. */
  ghost predicate Demanded(windows: seq<Window>, requiredEnd: real, a: real, b: real) {
    0.0 <= a && a + 1.0 < b && (b <= requiredEnd || exists w :: w in windows && b <= w.start)
  }

  lemma {:induction false} ReachBounds(rows: seq<Window>, n: nat)
    requires n <= |rows|
    ensures 0.0 <= Reach(rows, n)
    ensures forall i :: 0 <= i < n ==> rows[i].stop <= Reach(rows, n)
  {
    if n > 0 {
      ReachBounds(rows, n - 1);
    }
  }

  lemma {:induction false} StretchReached(windows: seq<Window>, expectedCount: nat, maxSec: real, requiredEnd: real,
                                          a: real, b: real)
    requires AllProblems(Sort(windows), expectedCount, maxSec, requiredEnd) == []
    requires Demanded(windows, requiredEnd, a, b)
    ensures a < Reach(Sort(windows), |Sort(windows)|)
  {
    if b > requiredEnd {
      var w :| w in windows && b <= w.start;
      SpanFine(windows, expectedCount, maxSec, requiredEnd, w);
      SortMembers(windows, w);
      ReachBounds(Sort(windows), |Sort(windows)|);
    }
  }

  lemma {:induction false} StretchTouched(windows: seq<Window>, expectedCount: nat, maxSec: real, requiredEnd: real,
                                          a: real, b: real)
    requires AllProblems(Sort(windows), expectedCount, maxSec, requiredEnd) == []
    requires Demanded(windows, requiredEnd, a, b)
    ensures Touched(windows, a, b)
  {
    var rows := Sort(windows);
    StretchReached(windows, expectedCount, maxSec, requiredEnd, a, b);
    var i := FirstPast(rows, a, |rows|);
    NoProblemAt(rows, expectedCount, maxSec, requiredEnd, |rows|, i);
    SortMembers(windows, rows[i]);
  }

  lemma {:induction false} SpanFine(windows: seq<Window>, expectedCount: nat, maxSec: real, requiredEnd: real,
                                    w: Window)
    requires AllProblems(Sort(windows), expectedCount, maxSec, requiredEnd) == [] && w in windows
    ensures w.start < w.stop <= w.start + maxSec + 1.0
  {
    var rows := Sort(windows);
    SortMembers(windows, w);
    var i :| 0 <= i < |rows| && rows[i] == w;
    NoProblemAt(rows, expectedCount, maxSec, requiredEnd, |rows|, i);
  }

  /** What the sweep is for, without the sweep: enough windows, every one of positive length and at
      most a second over the maximum, and no demanded stretch missed by all of them. */
  ghost predicate WellCovered(windows: seq<Window>, expectedCount: nat, maxSec: real, requiredEnd: real) {
    && windows != [] && |windows| >= expectedCount
    && (forall w :: w in windows ==> w.start < w.stop <= w.start + maxSec + 1.0)
    && (forall a, b :: Demanded(windows, requiredEnd, a, b) ==> Touched(windows, a, b))
  }

  /** A gap, or a sweep that ends too early, is a demanded stretch that no window touches. */
  lemma {:induction false} MissedStretch(windows: seq<Window>, requiredEnd: real, n: nat, b: real)
    requires n <= |windows| == |Sort(windows)| && Reach(Sort(windows), n) + 1.0 < b
    requires n < |windows| ==> b == Sort(windows)[n].start
    requires n == |windows| ==> b <= requiredEnd
    ensures Demanded(windows, requiredEnd, Reach(Sort(windows), n), b)
    ensures !Touched(windows, Reach(Sort(windows), n), b)
  {
    var rows := Sort(windows);
    SortSorts(windows);
    ReachBounds(rows, n);
    forall w | w in windows
      ensures !(w.start < b && Reach(rows, n) < w.stop)
    {
      SortMembers(windows, w);
      var i :| 0 <= i < |rows| && rows[i] == w;
      assert n < i ==> Ahead(rows[n], rows[i]);
    }
    if n < |windows| {
      SortMembers(windows, rows[n]);
    }
  }

  lemma {:induction false} NoProblems(windows: seq<Window>, expectedCount: nat, maxSec: real, requiredEnd: real, n: nat)
    requires WellCovered(windows, expectedCount, maxSec, requiredEnd) && n <= |windows| == |Sort(windows)|
    ensures Problems(Sort(windows), expectedCount, maxSec, requiredEnd, n) == []
  {
    if n > 0 {
      var rows := Sort(windows);
      NoProblems(windows, expectedCount, maxSec, requiredEnd, n - 1);
      SortMembers(windows, rows[n - 1]);
      if Gap(rows, n - 1) {
        MissedStretch(windows, requiredEnd, n - 1, rows[n - 1].start);
      }
    }
  }

  /** The sweep is silent exactly when the windows cover what they must. */
  lemma {:induction false} CleanSweepIff(windows: seq<Window>, expectedCount: nat, maxSec: real, requiredEnd: real)
    ensures AllProblems(Sort(windows), expectedCount, maxSec, requiredEnd) == []
            <==> WellCovered(windows, expectedCount, maxSec, requiredEnd)
  {
    if AllProblems(Sort(windows), expectedCount, maxSec, requiredEnd) == [] {
      CleanSweepCovers(windows, expectedCount, maxSec, requiredEnd);
    }
    if WellCovered(windows, expectedCount, maxSec, requiredEnd) {
      NothingIncomplete(windows, expectedCount, maxSec, requiredEnd);
    }
  }

  lemma {:induction false} NothingIncomplete(windows: seq<Window>, expectedCount: nat, maxSec: real, requiredEnd: real)
    requires WellCovered(windows, expectedCount, maxSec, requiredEnd)
    ensures AllProblems(Sort(windows), expectedCount, maxSec, requiredEnd) == []
  {
    var rows := Sort(windows);
    SortSorts(windows);
    NoProblems(windows, expectedCount, maxSec, requiredEnd, |windows|);
    NoProblemAt(rows, expectedCount, maxSec, requiredEnd, |windows|, 0);
    if Reach(rows, |rows|) < requiredEnd - 1.0 {
      MissedStretch(windows, requiredEnd, |windows|, requiredEnd);
    }
  }

  lemma {:induction false} CleanSweepCovers(windows: seq<Window>, expectedCount: nat, maxSec: real, requiredEnd: real)
    requires AllProblems(Sort(windows), expectedCount, maxSec, requiredEnd) == []
    ensures WellCovered(windows, expectedCount, maxSec, requiredEnd)
  {
    forall a, b | Demanded(windows, requiredEnd, a, b)
      ensures Touched(windows, a, b)
    {
      StretchTouched(windows, expectedCount, maxSec, requiredEnd, a, b);
    }
    forall w | w in windows
      ensures w.start < w.stop <= w.start + maxSec + 1.0
    {
      SpanFine(windows, expectedCount, maxSec, requiredEnd, w);
    }
    SortSorts(windows);
    NoneTooFew(Sort(windows), expectedCount, maxSec, requiredEnd, |Sort(windows)|);
    SortMembers(windows, Sort(windows)[0]);
  }

  lemma {:induction false} NoneTooFew(rows: seq<Window>, expectedCount: nat, maxSec: real, requiredEnd: real, n: nat)
    requires n <= |rows| && Problems(rows, expectedCount, maxSec, requiredEnd, n) == []
    ensures |rows| >= expectedCount
  {
    if n > 0 {
      NoneTooFew(rows, expectedCount, maxSec, requiredEnd, n - 1);
    }
  }

  // ----- what each problem means -----

  lemma {:induction false} ProblemsMembers(rows: seq<Window>, expectedCount: nat, maxSec: real, requiredEnd: real,
                                           n: nat, p: Problem)
    requires n <= |rows|
    ensures p in Problems(rows, expectedCount, maxSec, requiredEnd, n) <==>
              || (p == TooFew && |rows| < expectedCount)
              || (exists i :: 0 <= i < n && Gap(rows, i) && p == GapBefore(rows[i].start))
              || (p == InvalidSpan && exists i :: 0 <= i < n && BadSpan(rows[i], maxSec))
  {
    if n > 0 {
      ProblemsMembers(rows, expectedCount, maxSec, requiredEnd, n - 1, p);
    }
  }

  /** The earliest window with this start. */
  lemma {:induction false} FirstStart(rows: seq<Window>, i: nat) returns (k: nat)
    requires i < |rows| && Sorted(rows)
    ensures k <= i && rows[k].start == rows[i].start && forall j :: 0 <= j < k ==> rows[j].start < rows[k].start
  {
    if i == 0 || rows[i - 1].start < rows[i].start {
      k := i;
      forall j | 0 <= j < k
        ensures rows[j].start < rows[k].start
      {
        assert j < i - 1 ==> Ahead(rows[j], rows[i - 1]);
      }
    } else {
      assert Ahead(rows[i - 1], rows[i]);
      k := FirstStart(rows, i - 1);
    }
  }

  /** `x` is where some window starts, more than a second after zero and after every window that starts
      earlier has stopped. */
  ghost predicate StartsLate(windows: seq<Window>, x: real) {
    && x > 1.0 && (exists w :: w in windows && w.start == x)
    && forall v :: v in windows && v.start < x ==> v.stop + 1.0 < x
  }

  lemma {:induction false} GapIsLate(windows: seq<Window>, x: real)
    ensures (exists i :: 0 <= i < |Sort(windows)| && Gap(Sort(windows), i) && Sort(windows)[i].start == x)
            <==> StartsLate(windows, x)
  {
    var rows := Sort(windows);
    SortSorts(windows);
    forall i | 0 <= i < |rows| && Gap(rows, i)
      ensures StartsLate(windows, rows[i].start)
    {
      LateStart(windows, i);
    }
    if StartsLate(windows, x) {
      var w :| w in windows && w.start == x;
      SortMembers(windows, w);
      var i :| 0 <= i < |rows| && rows[i] == w;
      var k := FirstStart(rows, i);
      LateReach(windows, k, x);
    }
  }

  lemma {:induction false} LateStart(windows: seq<Window>, i: nat)
    requires i < |Sort(windows)| && Gap(Sort(windows), i)
    ensures StartsLate(windows, Sort(windows)[i].start)
  {
    var rows := Sort(windows);
    SortSorts(windows);
    ReachBounds(rows, i);
    SortMembers(windows, rows[i]);
    assert forall j :: i < j < |rows| ==> Ahead(rows[i], rows[j]);
    forall v | v in windows && v.start < rows[i].start
      ensures v.stop + 1.0 < rows[i].start
    {
      SortMembers(windows, v);
      var j :| 0 <= j < |rows| && rows[j] == v;
    }
  }

  lemma {:induction false} LateReach(windows: seq<Window>, k: nat, x: real)
    requires StartsLate(windows, x) && k < |Sort(windows)| && Sort(windows)[k].start == x
    requires forall j :: 0 <= j < k ==> Sort(windows)[j].start < x
    ensures Gap(Sort(windows), k)
  {
    var rows := Sort(windows);
    forall j | 0 <= j < k
      ensures rows[j].stop + 1.0 < x
    {
      SortMembers(windows, rows[j]);
    }
    ReachBelow(rows, k, x - 1.0);
  }

  lemma {:induction false} ReachBelow(rows: seq<Window>, n: nat, bound: real)
    requires n <= |rows| && 0.0 < bound && forall j :: 0 <= j < n ==> rows[j].stop < bound
    ensures Reach(rows, n) < bound
  {
    if n > 0 {
      ReachBelow(rows, n - 1, bound);
    }
  }

  /** Which problems are reported: too few windows, a start that comes late, a window of no length or of
      more than a second too much, and a beginning or an end that no window covers. */
  lemma {:induction false} ReportedIff(windows: seq<Window>, expectedCount: nat, maxSec: real, requiredEnd: real,
                                       x: real)
    ensures var problems := AllProblems(Sort(windows), expectedCount, maxSec, requiredEnd);
            && (TooFew in problems <==> |windows| < expectedCount)
            && (GapBefore(x) in problems <==> StartsLate(windows, x))
            && (InvalidSpan in problems <==>
                  exists w :: w in windows && (w.stop <= w.start || w.stop - w.start > maxSec + 1.0))
            && (Incomplete in problems <==>
                  || (forall w :: w in windows ==> w.start > 1.0)
                  || (requiredEnd > 1.0 && forall w :: w in windows ==> w.stop < requiredEnd - 1.0))
  {
    var rows := Sort(windows);
    SortSorts(windows);
    ProblemsMembers(rows, expectedCount, maxSec, requiredEnd, |rows|, TooFew);
    ProblemsMembers(rows, expectedCount, maxSec, requiredEnd, |rows|, GapBefore(x));
    ProblemsMembers(rows, expectedCount, maxSec, requiredEnd, |rows|, InvalidSpan);
    ProblemsMembers(rows, expectedCount, maxSec, requiredEnd, |rows|, Incomplete);
    GapIsLate(windows, x);
    BadSpanIff(windows, maxSec);
    IncompleteIff(windows, requiredEnd);
  }

  lemma {:induction false} BadSpanIff(windows: seq<Window>, maxSec: real)
    ensures (exists i :: 0 <= i < |Sort(windows)| && BadSpan(Sort(windows)[i], maxSec)) <==>
              exists w :: w in windows && (w.stop <= w.start || w.stop - w.start > maxSec + 1.0)
  {
    var rows := Sort(windows);
    forall i | 0 <= i < |rows|
      ensures rows[i] in windows
    {
      SortMembers(windows, rows[i]);
    }
    forall w | w in windows
      ensures exists i :: 0 <= i < |rows| && rows[i] == w
    {
      SortMembers(windows, w);
    }
  }

  lemma {:induction false} IncompleteIff(windows: seq<Window>, requiredEnd: real)
    ensures var rows := Sort(windows);
            (rows == [] || rows[0].start > 1.0 || Reach(rows, |rows|) < requiredEnd - 1.0) <==>
              || (forall w :: w in windows ==> w.start > 1.0)
              || (requiredEnd > 1.0 && forall w :: w in windows ==> w.stop < requiredEnd - 1.0)
  {
    var rows := Sort(windows);
    SortSorts(windows);
    ReachBounds(rows, |rows|);
    forall w | w in windows
      ensures exists i :: 0 <= i < |rows| && rows[i] == w && rows[0].start <= w.start && w.stop <= Reach(rows, |rows|)
    {
      SortMembers(windows, w);
      var i :| 0 <= i < |rows| && rows[i] == w;
      assert 0 < i ==> Ahead(rows[0], rows[i]);
    }
    forall i | 0 <= i < |rows|
      ensures rows[i] in windows
    {
      SortMembers(windows, rows[i]);
    }
    if requiredEnd > 1.0 && forall w :: w in windows ==> w.stop < requiredEnd - 1.0 {
      ReachBelow(rows, |rows|, requiredEnd - 1.0);
    }
  }
}
