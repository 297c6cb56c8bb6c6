/** The stamp script's two calls and the reuse query as they run undisturbed on one checkout, and
    their place in the interleaved protocol. */
module CoverageStamp {
  import opened Options
  import opened StampProtocol

  /** What a stamp call leaves in the report when nothing overtakes it. */
  function Stamping(head: Head, marker: MarkerFile, report: ReportFile, expected: Token): ReportFile {
    if report.Report? && MarkerAccepted(marker, expected) && head != "" && marker.marker.head == head
    then Report(report.origin, Some(head))
    else report
  }

  /** The files the script works on, and what git answers; a tree git cannot tell about counts as
      dirty. */
  class Checkout {
    var head: Head
    var dirty: bool
    var marker: MarkerFile
    var report: ReportFile

    constructor (h: Head, d: bool, m: MarkerFile, r: ReportFile)
      ensures head == h && dirty == d && marker == m && report == r
    {
      head, dirty, marker, report := h, d, m, r;
    }

    /** `--record-start`: a stale marker never survives it, whatever git says. */
    method RecordStart(newToken: Token) returns (status: int, token: Token)
      modifies this`marker
      ensures head == "" ==> status == 1 && token == "" && marker == NoMarker
      ensures head != "" ==> status == 0 && token == newToken && marker == Written(Marker(head, dirty, newToken))
    {
      marker := NoMarker;
      if head == "" {
        return 1, "";
      }
      marker := Written(Marker(head, dirty, newToken));
      return 0, newToken;
    }

    /** Reading the marker uses it up, readable or not. */
    method LoadAndConsumeStart() returns (start: Option<Marker>)
      modifies this`marker
      ensures marker == NoMarker
      ensures start == if old(marker).Written? then Some(old(marker).marker) else None
    {
      start := None;
      if marker.NoMarker? {
        return;
      }
      if marker.Written? {
        start := Some(marker.marker);
      }
      marker := NoMarker;
    }

    /** The stamp call: always consumes the marker, stamps only after every check. */
    method StampReport(expected: Token)
      modifies this`marker, this`report
      ensures marker == NoMarker
      ensures report == Stamping(head, old(marker), old(report), expected)
    {
      if report.Unusable? {
        var _ := LoadAndConsumeStart();
        return;
      }
      var origin := report.origin;
      var start := LoadAndConsumeStart();
      if start.None? {
        return;
      }
      if start.value.token != expected {
        return;
      }
      if start.value.dirty {
        return;
      }
      if head == "" {
        return;
      }
      if start.value.head != head {
        return;
      }
      report := Report(origin, Some(head));
    }
  }

  // ----- the same call inside the protocol -----

  /** The stamp moves still to make from a program counter, if nobody interferes. */
  function NextMove(pc: Pc): Option<StampMove> {
    match pc
    case Started(_) => Some(ReadReport)
    case Discarding => Some(DiscardMarker)
    case HasReport(_, _, _) => Some(ReadMarker)
    case HasMarker(_, _, _, _) => Some(DeleteMarker)
    case Consumed(_, _, _, _) => Some(ReadEndHead)
    case Verified(_, _, _, _, _) => Some(WriteStamp)
    case _ => None
  }

  /** Runs the stamp call of `r` to its end without interference. */
  function Uninterrupted(w: World, r: RunId, fuel: nat): World
    decreases fuel
  {
    if fuel == 0 || NextMove(PcOf(w, r)).None? then w
    else match StampStep(w, r, NextMove(PcOf(w, r)).value)
         case None => w
         case Some(w') => Uninterrupted(w', r, fuel - 1)
  }

  lemma {:induction false} UninterruptedStep(w: World, r: RunId, fuel: nat, w': World)
    requires fuel > 0 && NextMove(PcOf(w, r)).Some?
    requires StampStep(w, r, NextMove(PcOf(w, r)).value) == Some(w')
    ensures Uninterrupted(w, r, fuel) == Uninterrupted(w', r, fuel - 1)
  {
  }

  lemma {:induction false} UninterruptedEnd(w: World, r: RunId, fuel: nat)
    requires NextMove(PcOf(w, r)).None?
    ensures Uninterrupted(w, r, fuel) == w
  {
  }

  /** Checking and stamping, once the marker has been consumed. */
  lemma {:induction false} CheckedStamp(w: World, r: RunId, token: Token, origin: nat, at: nat, found: MarkerFile,
                                        fuel: nat)
    requires PcOf(w, r) == Consumed(token, origin, at, found) && fuel >= 2
    ensures var w' := Uninterrupted(w, r, fuel);
            && PcOf(w', r) == Done && w'.marker == w.marker
            && w'.report == if MarkerAccepted(found, token) && w.head != "" && found.marker.head == w.head
                            then Report(origin, Some(w.head)) else w.report
  {
    var w1 := StampStep(w, r, ReadEndHead).value;
    UninterruptedStep(w, r, fuel, w1);
    if MarkerAccepted(found, token) && w.head != "" && found.marker.head == w.head {
      var w2 := StampStep(w1, r, WriteStamp).value;
      UninterruptedStep(w1, r, fuel - 1, w2);
      UninterruptedEnd(w2, r, fuel - 2);
    } else {
      UninterruptedEnd(w1, r, fuel - 1);
    }
  }

  /** From the consumed-or-missing marker on. */
  lemma {:induction false} MarkedStamp(w: World, r: RunId, token: Token, origin: nat, at: nat, fuel: nat)
    requires PcOf(w, r) == HasReport(token, origin, at) && fuel >= 4
    requires w.report.Report? && w.report.origin == origin
    ensures var w' := Uninterrupted(w, r, fuel);
            && PcOf(w', r) == Done && w'.marker == NoMarker
            && w'.report == Stamping(w.head, w.marker, w.report, token)
  {
    var w1 := StampStep(w, r, ReadMarker).value;
    UninterruptedStep(w, r, fuel, w1);
    if w.marker.NoMarker? {
      UninterruptedEnd(w1, r, fuel - 1);
    } else {
      var w2 := StampStep(w1, r, DeleteMarker).value;
      UninterruptedStep(w1, r, fuel - 1, w2);
      CheckedStamp(w2, r, token, origin, at, w.marker, fuel - 2);
    }
  }

  /** Five undisturbed steps of the protocol are one call of `StampReport`. */
  lemma {:induction false} StampCallInProtocol(w: World, r: RunId, token: Token)
    requires PcOf(w, r) == Started(token)
    ensures var w' := Uninterrupted(w, r, 5);
            && PcOf(w', r) == Done && w'.marker == NoMarker
            && w'.report == Stamping(w.head, w.marker, w.report, token)
  {
    var w1 := StampStep(w, r, ReadReport).value;
    UninterruptedStep(w, r, 5, w1);
    if w.report.Unusable? {
      var w2 := StampStep(w1, r, DiscardMarker).value;
      UninterruptedStep(w1, r, 4, w2);
      UninterruptedEnd(w2, r, 3);
    } else {
      MarkedStamp(w1, r, token, w.report.origin, |w.log|, 4);
    }
  }

  // ----- which report is reused -----

  /** A candidate report file as the query reads it. `kind` and `head` come from its scope entry. */
  datatype Candidate =
    | Missing
    | Malformed
    | NoBranchData
    | Unscoped
    | Scoped(kind: string, head: Option<Head>)

  datatype Reason = NotThere | BadJson | NoBranches | WrongScope | DirtyTree | OtherHead

  /** The full report is preferred. A report is chosen only if it is stamped, as a report of its kind,
      with the HEAD there is, and git did not call the tree dirty; a status call that failed is no
      objection. A refusal gives each candidate the first check it fails. */
  method FindReusable(head: Head, status: Option<bool>, candidates: seq<Candidate>)
    returns (chosen: Option<nat>, reasons: seq<Reason>)
    requires |candidates| == 2
    ensures chosen.Some? ==> chosen.value < 2 && reasons == []
    ensures chosen == Some(0) <==>
              head != "" && status != Some(true) && candidates[0] == Scoped("full", Some(head))
    ensures chosen == Some(1) <==>
              && head != "" && status != Some(true) && candidates[0] != Scoped("full", Some(head))
              && candidates[1] == Scoped("selected-tests", Some(head))
    ensures chosen.None? ==> |reasons| == 2 && forall j :: 0 <= j < 2 ==>
              var kind := if j == 0 then "full" else "selected-tests";
              var stamped := exists h :: candidates[j] == Scoped(kind, Some(h));
              && (reasons[j] == NotThere <==> candidates[j] == Missing)
              && (reasons[j] == BadJson <==> candidates[j] == Malformed)
              && (reasons[j] == NoBranches <==> candidates[j] == NoBranchData)
              && (reasons[j] == DirtyTree <==> stamped && status == Some(true))
              && (reasons[j] == OtherHead <==> stamped && status != Some(true))
  {
    var dirty := status == Some(true);
    reasons := [];
    for i := 0 to 2
      invariant |reasons| == i
      invariant i > 0 ==> dirty || head == "" || candidates[0] != Scoped("full", Some(head))
      invariant i > 1 ==> dirty || head == "" || candidates[1] != Scoped("selected-tests", Some(head))
      invariant forall j :: 0 <= j < i ==>
                  var kind := if j == 0 then "full" else "selected-tests";
                  var stamped := exists h :: candidates[j] == Scoped(kind, Some(h));
                  && (reasons[j] == NotThere <==> candidates[j] == Missing)
                  && (reasons[j] == BadJson <==> candidates[j] == Malformed)
                  && (reasons[j] == NoBranches <==> candidates[j] == NoBranchData)
                  && (reasons[j] == DirtyTree <==> stamped && dirty)
                  && (reasons[j] == OtherHead <==> stamped && !dirty)
    {
      var c, kind := candidates[i], if i == 0 then "full" else "selected-tests";
      if c.Missing? {
        reasons := reasons + [NotThere];
      } else if c.Malformed? {
        reasons := reasons + [BadJson];
      } else if c.NoBranchData? {
        reasons := reasons + [NoBranches];
      } else if c.Unscoped? || c.kind != kind || c.head.None? {
        reasons := reasons + [WrongScope];
      } else if dirty {
        assert c == Scoped(kind, Some(c.head.value));
        reasons := reasons + [DirtyTree];
      } else if head == "" || c.head.value != head {
        assert c == Scoped(kind, Some(c.head.value));
        reasons := reasons + [OtherHead];
      } else {
        return Some(i), [];
      }
    }
    return None, reasons;
  }

  /** A query that nobody interrupts, as three steps of the protocol. */
  function UninterruptedQuery(w: World, r: RunId, answered: bool): Option<World> {
    match QueryStep(w, r, ReadQueryHead)
    case None => None
    case Some(w1) =>
      match QueryStep(w1, r, ReadQueryTree(answered))
      case None => None
      case Some(w2) => QueryStep(w2, r, ReadQueryReport)
  }

  /** The full report of the protocol as a candidate of the query. */
  function FullCandidate(report: ReportFile): Candidate {
    match report
    case Unusable => Missing
    case Report(_, None) => Unscoped
    case Report(_, Some(h)) => Scoped("full", Some(h))
  }

  /** Such a query reuses the full report exactly when `FindReusable` chooses it, given the HEAD, the
      status call's answer and the report of that moment. */
  lemma {:induction false} QueryInProtocol(w: World, r: RunId, answered: bool)
    requires PcOf(w, r) == Idle
    ensures var status := if answered then Some(w.dirty) else None;
            && UninterruptedQuery(w, r, answered).Some?
            && var w' := UninterruptedQuery(w, r, answered).value;
               && w'.report == w.report && w'.marker == w.marker && PcOf(w', r) == Done
               && ((|w'.log| > 0 && w'.log[|w'.log| - 1].Reused?) <==>
                     w.head != "" && status != Some(true) && FullCandidate(w.report) == Scoped("full", Some(w.head)))
  {
    var w1 := QueryStep(w, r, ReadQueryHead).value;
    assert PcOf(w1, r) == QuerySawHead(w.head, |w.log|);
    var w2 := QueryStep(w1, r, ReadQueryTree(answered)).value;
    assert PcOf(w2, r) == QuerySawTree(w.head, |w.log|, w.dirty && answered, |w1.log|);
    assert w2.log[|w2.log| - 1].QueryTree?;
  }
}
