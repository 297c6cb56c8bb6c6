/** Schedules in which every check passes and yet a stamp does not cover the stamping run's own
    measurements, or a report is reused over a dirty tree. */
module StampOverlaps {
  import opened Options
  import opened StampProtocol

  /** From step `k` on, the schedule leads through these worlds. */
  ghost predicate LeadsThrough(actions: seq<Action>, k: nat, worlds: seq<World>) {
    && |worlds| >= 1 && k + |worlds| - 1 <= |actions|
    && forall i :: 0 <= i < |worlds| - 1 ==> Step(worlds[i], actions[k + i]) == Some(worlds[i + 1])
  }

  lemma {:induction false} Chain(actions: seq<Action>, k: nat, worlds: seq<World>)
    requires LeadsThrough(actions, k, worlds) && Execute(INIT, actions[..k]) == Some(worlds[0])
    ensures Execute(INIT, actions[..k + |worlds| - 1]) == Some(worlds[|worlds| - 1])
    decreases |worlds|
  {
    if |worlds| > 1 {
      var n := |worlds| - 1;
      Chain(actions, k, worlds[..n]);
      assert actions[..k + n][..k + n - 1] == actions[..k + n - 1];
    }
  }

  // ----- another run measures last -----

  /** Run 0 records a dirty tree, the tree is cleaned, run 1 records it clean and measures, then run
      0 writes its own measurements before run 1 stamps. */
  const OVERLAP: seq<Action> := [
    Environment(MoveHead("h")),
    Record(0, ClearMarker), Record(0, ReadStartHead), Record(0, ReadStartTree("s", true)), Record(0, WriteMarker),
    Environment(ChangeTree(false)),
    Record(1, ClearMarker), Record(1, ReadStartHead), Record(1, ReadStartTree("t", true)), Record(1, WriteMarker),
    Record(1, Measure), Record(0, Measure),
    Stamp(1, ReadReport), Stamp(1, ReadMarker), Stamp(1, DeleteMarker), Stamp(1, ReadEndHead), Stamp(1, WriteStamp)
  ]

  const OVERLAP_LOG: Log := [
    HeadMoved("h"), StartHead(0, "h"), StartTree(0, true), TreeChanged(false),
    StartHead(1, "h"), StartTree(1, false), Measured(1), Measured(0),
    ReportRead(1, 7), EndHead(1, "h"), Stamped(1, "h", 7)
  ]

  function FirstRecorded(): World {
    World("h", true, Written(Marker("h", true, "s")), Unusable, map["s" := Claim(0, "h", true, 1, 2)],
          map[0 := Started("s")], OVERLAP_LOG[..3])
  }

  function FirstSawHead(): World {
    World("h", true, NoMarker, Unusable, map[], map[0 := SawHead("h", 1)], OVERLAP_LOG[..2])
  }

  lemma {:induction false} FirstSees() returns (worlds: seq<World>)
    ensures |worlds| == 4 && LeadsThrough(OVERLAP, 0, worlds) && worlds[0] == INIT && worlds[3] == FirstSawHead()
  {
    var w1 := Step(INIT, OVERLAP[0]).value;
    var w2 := Step(w1, OVERLAP[1]).value;
    var w3 := Step(w2, OVERLAP[2]).value;
    worlds := [INIT, w1, w2, w3];
    assert w3 == FirstSawHead();
  }

  lemma {:induction false} FirstRecord() returns (worlds: seq<World>)
    ensures |worlds| == 3 && LeadsThrough(OVERLAP, 3, worlds)
    ensures worlds[0] == FirstSawHead() && worlds[2] == FirstRecorded()
  {
    var w4 := Step(FirstSawHead(), OVERLAP[3]).value;
    var w5 := Step(w4, OVERLAP[4]).value;
    worlds := [FirstSawHead(), w4, w5];
    assert w5 == FirstRecorded();
  }

  function BothMeasured(): World {
    World("h", false, Written(Marker("h", false, "t")), Report(7, None),
          map["s" := Claim(0, "h", true, 1, 2), "t" := Claim(1, "h", false, 4, 5)],
          map[0 := Started("s"), 1 := Started("t")], OVERLAP_LOG[..8])
  }

  function SecondRecorded(): World {
    BothMeasured().(report := Unusable, log := OVERLAP_LOG[..6])
  }

  function SecondSawHead(): World {
    World("h", false, NoMarker, Unusable, map["s" := Claim(0, "h", true, 1, 2)],
          map[0 := Started("s"), 1 := SawHead("h", 4)], OVERLAP_LOG[..5])
  }

  lemma {:induction false} SecondSees() returns (worlds: seq<World>)
    ensures |worlds| == 4 && LeadsThrough(OVERLAP, 5, worlds)
    ensures worlds[0] == FirstRecorded() && worlds[3] == SecondSawHead()
  {
    var w6 := Step(FirstRecorded(), OVERLAP[5]).value;
    var w7 := Step(w6, OVERLAP[6]).value;
    var w8 := Step(w7, OVERLAP[7]).value;
    worlds := [FirstRecorded(), w6, w7, w8];
    assert w8 == SecondSawHead();
  }

  lemma {:induction false} SecondRecord() returns (worlds: seq<World>)
    ensures |worlds| == 3 && LeadsThrough(OVERLAP, 8, worlds)
    ensures worlds[0] == SecondSawHead() && worlds[2] == SecondRecorded()
  {
    var w9 := Step(SecondSawHead(), OVERLAP[8]).value;
    var w10 := Step(w9, OVERLAP[9]).value;
    worlds := [SecondSawHead(), w9, w10];
    assert w10 == SecondRecorded();
  }

  lemma {:induction false} FirstRecordReached()
    ensures Execute(INIT, OVERLAP[..5]) == Some(FirstRecorded())
  {
    assert OVERLAP[..0] == [];
    var worlds := FirstSees();
    Chain(OVERLAP, 0, worlds);
    worlds := FirstRecord();
    Chain(OVERLAP, 3, worlds);
  }

  lemma {:induction false} SecondRecordReached()
    ensures Execute(INIT, OVERLAP[..10]) == Some(SecondRecorded())
  {
    FirstRecordReached();
    var worlds := SecondSees();
    Chain(OVERLAP, 5, worlds);
    worlds := SecondRecord();
    Chain(OVERLAP, 8, worlds);
  }

  lemma {:induction false} BothMeasure() returns (worlds: seq<World>)
    ensures |worlds| == 3 && LeadsThrough(OVERLAP, 10, worlds)
    ensures worlds[0] == SecondRecorded() && worlds[2] == BothMeasured()
  {
    var w11 := Step(SecondRecorded(), OVERLAP[10]).value;
    var w12 := Step(w11, OVERLAP[11]).value;
    worlds := [SecondRecorded(), w11, w12];
  }

  lemma {:induction false} ForeignStamp() returns (worlds: seq<World>)
    ensures |worlds| == 6 && LeadsThrough(OVERLAP, 12, worlds)
    ensures worlds[0] == BothMeasured() && worlds[5].log == OVERLAP_LOG
  {
    var w13 := Step(BothMeasured(), OVERLAP[12]).value;
    var w14 := Step(w13, OVERLAP[13]).value;
    var w15 := Step(w14, OVERLAP[14]).value;
    var w16 := Step(w15, OVERLAP[15]).value;
    var w17 := Step(w16, OVERLAP[16]).value;
    worlds := [BothMeasured(), w13, w14, w15, w16, w17];
  }

  lemma {:induction false} ForeignStampReached() returns (w: World)
    ensures Execute(INIT, OVERLAP) == Some(w) && w.log == OVERLAP_LOG
  {
    SecondRecordReached();
    var worlds := BothMeasure();
    Chain(OVERLAP, 10, worlds);
    worlds := ForeignStamp();
    Chain(OVERLAP, 12, worlds);
    assert OVERLAP[..17] == OVERLAP;
    w := worlds[5];
  }

  /** Tokens alone do not make a stamp cover the stamping run's own measurements: here the stamp of
      run 1, whose tree was clean, is put on what run 0 measured in a tree that was dirty. */
  lemma {:induction false} OverlapCoversForeignMeasurements()
    ensures Execute(INIT, OVERLAP).Some?
    ensures var log := Execute(INIT, OVERLAP).value.log;
            && log == OVERLAP_LOG
            && log[10] == Stamped(1, "h", 7) && log[7] == Measured(0)
            && LastRead(log[..10], 1) == 8 && !Holds(log, 1, 8)
  {
    var w := ForeignStampReached();
    assert OVERLAP_LOG[..10][8] == ReportRead(1, 7);
    StampedMeasurementsIff(OVERLAP, w, 10, 1);
  }

  // ----- a slow stamp puts older measurements back -----

  /** Run 0 is about to stamp when run 1 records and measures; run 0 then writes what it had opened
      before, and run 1 stamps that. */
  const STALE: seq<Action> := [
    Environment(MoveHead("h")), Environment(ChangeTree(false)),
    Record(0, ClearMarker), Record(0, ReadStartHead), Record(0, ReadStartTree("s", true)), Record(0, WriteMarker),
    Record(0, Measure),
    Stamp(0, ReadReport), Stamp(0, ReadMarker), Stamp(0, DeleteMarker), Stamp(0, ReadEndHead),
    Record(1, ClearMarker), Record(1, ReadStartHead), Record(1, ReadStartTree("t", true)), Record(1, WriteMarker),
    Record(1, Measure),
    Stamp(0, WriteStamp),
    Stamp(1, ReadReport), Stamp(1, ReadMarker), Stamp(1, DeleteMarker), Stamp(1, ReadEndHead), Stamp(1, WriteStamp)
  ]

  const STALE_LOG: Log := [
    HeadMoved("h"), TreeChanged(false), StartHead(0, "h"), StartTree(0, false), Measured(0),
    ReportRead(0, 4), EndHead(0, "h"),
    StartHead(1, "h"), StartTree(1, false), Measured(1),
    Stamped(0, "h", 4),
    ReportRead(1, 4), EndHead(1, "h"), Stamped(1, "h", 4)
  ]

  const SLOW_CLAIM := Claim(0, "h", false, 2, 3)
  const LATE_CLAIM := Claim(1, "h", false, 7, 8)

  function SlowSawHead(): World {
    World("h", false, NoMarker, Unusable, map[], map[0 := SawHead("h", 2)], STALE_LOG[..3])
  }

  function SlowMeasured(): World {
    World("h", false, Written(Marker("h", false, "s")), Report(4, None), map["s" := SLOW_CLAIM],
          map[0 := Started("s")], STALE_LOG[..5])
  }

  function SlowLooked(): World {
    SlowMeasured().(pcs := map[0 := HasMarker("s", 4, 5, Written(Marker("h", false, "s")))], log := STALE_LOG[..6])
  }

  function SlowVerified(): World {
    World("h", false, NoMarker, Report(4, None), map["s" := SLOW_CLAIM],
          map[0 := Verified("s", 4, 5, "h", 6)], STALE_LOG[..7])
  }

  function LateSawHead(): World {
    SlowVerified().(pcs := map[0 := Verified("s", 4, 5, "h", 6), 1 := SawHead("h", 7)], log := STALE_LOG[..8])
  }

  function LateMeasured(): World {
    World("h", false, Written(Marker("h", false, "t")), Report(9, None),
          map["s" := SLOW_CLAIM, "t" := LATE_CLAIM],
          map[0 := Verified("s", 4, 5, "h", 6), 1 := Started("t")], STALE_LOG[..10])
  }

  function SlowStamped(): World {
    LateMeasured().(report := Report(4, Some("h")), pcs := map[0 := Done, 1 := Started("t")], log := STALE_LOG[..11])
  }

  lemma {:induction false} SlowSees() returns (worlds: seq<World>)
    ensures |worlds| == 5 && LeadsThrough(STALE, 0, worlds) && worlds[0] == INIT && worlds[4] == SlowSawHead()
  {
    var w1 := Step(INIT, STALE[0]).value;
    var w2 := Step(w1, STALE[1]).value;
    var w3 := Step(w2, STALE[2]).value;
    var w4 := Step(w3, STALE[3]).value;
    worlds := [INIT, w1, w2, w3, w4];
    assert w4 == SlowSawHead();
  }

  lemma {:induction false} SlowRuns() returns (worlds: seq<World>)
    ensures |worlds| == 4 && LeadsThrough(STALE, 4, worlds)
    ensures worlds[0] == SlowSawHead() && worlds[3] == SlowMeasured()
  {
    var w5 := Step(SlowSawHead(), STALE[4]).value;
    var w6 := Step(w5, STALE[5]).value;
    var w7 := Step(w6, STALE[6]).value;
    worlds := [SlowSawHead(), w5, w6, w7];
    assert w7 == SlowMeasured();
  }

  lemma {:induction false} SlowLooks() returns (worlds: seq<World>)
    ensures |worlds| == 3 && LeadsThrough(STALE, 7, worlds)
    ensures worlds[0] == SlowMeasured() && worlds[2] == SlowLooked()
  {
    var w8 := Step(SlowMeasured(), STALE[7]).value;
    var w9 := Step(w8, STALE[8]).value;
    worlds := [SlowMeasured(), w8, w9];
    assert w9 == SlowLooked();
  }

  lemma {:induction false} SlowChecks() returns (worlds: seq<World>)
    ensures |worlds| == 3 && LeadsThrough(STALE, 9, worlds)
    ensures worlds[0] == SlowLooked() && worlds[2] == SlowVerified()
  {
    var w10 := Step(SlowLooked(), STALE[9]).value;
    var w11 := Step(w10, STALE[10]).value;
    worlds := [SlowLooked(), w10, w11];
    assert w11 == SlowVerified();
  }

  lemma {:induction false} LateSees() returns (worlds: seq<World>)
    ensures |worlds| == 3 && LeadsThrough(STALE, 11, worlds)
    ensures worlds[0] == SlowVerified() && worlds[2] == LateSawHead()
  {
    var w12 := Step(SlowVerified(), STALE[11]).value;
    var w13 := Step(w12, STALE[12]).value;
    worlds := [SlowVerified(), w12, w13];
    assert w13 == LateSawHead();
  }

  lemma {:induction false} LateRecords() returns (worlds: seq<World>)
    ensures |worlds| == 3 && LeadsThrough(STALE, 13, worlds)
    ensures worlds[0] == LateSawHead() && worlds[2] == LateMeasured().(report := Report(4, None), log := STALE_LOG[..9])
  {
    var w14 := Step(LateSawHead(), STALE[13]).value;
    var w15 := Step(w14, STALE[14]).value;
    worlds := [LateSawHead(), w14, w15];
  }

  lemma {:induction false} LateRuns() returns (worlds: seq<World>)
    ensures |worlds| == 2 && LeadsThrough(STALE, 15, worlds)
    ensures worlds[0] == LateMeasured().(report := Report(4, None), log := STALE_LOG[..9])
    ensures worlds[1] == LateMeasured()
  {
    var w15 := LateMeasured().(report := Report(4, None), log := STALE_LOG[..9]);
    worlds := [w15, Step(w15, STALE[15]).value];
  }

  lemma {:induction false} SlowStamps() returns (worlds: seq<World>)
    ensures |worlds| == 2 && LeadsThrough(STALE, 16, worlds)
    ensures worlds[0] == LateMeasured() && worlds[1] == SlowStamped()
  {
    var w17 := Step(LateMeasured(), STALE[16]).value;
    worlds := [LateMeasured(), w17];
    assert w17 == SlowStamped();
  }

  lemma {:induction false} LateStamps() returns (worlds: seq<World>)
    ensures |worlds| == 6 && LeadsThrough(STALE, 17, worlds)
    ensures worlds[0] == SlowStamped() && worlds[5].log == STALE_LOG
  {
    var w18 := Step(SlowStamped(), STALE[17]).value;
    var w19 := Step(w18, STALE[18]).value;
    var w20 := Step(w19, STALE[19]).value;
    var w21 := Step(w20, STALE[20]).value;
    var w22 := Step(w21, STALE[21]).value;
    worlds := [SlowStamped(), w18, w19, w20, w21, w22];
  }

  lemma {:induction false} SlowVerifiedReached()
    ensures Execute(INIT, STALE[..11]) == Some(SlowVerified())
  {
    assert STALE[..0] == [];
    var worlds := SlowSees();
    Chain(STALE, 0, worlds);
    worlds := SlowRuns();
    Chain(STALE, 4, worlds);
    worlds := SlowLooks();
    Chain(STALE, 7, worlds);
    worlds := SlowChecks();
    Chain(STALE, 9, worlds);
  }

  lemma {:induction false} SlowStampedReached()
    ensures Execute(INIT, STALE[..17]) == Some(SlowStamped())
  {
    SlowVerifiedReached();
    var worlds := LateSees();
    Chain(STALE, 11, worlds);
    worlds := LateRecords();
    Chain(STALE, 13, worlds);
    worlds := LateRuns();
    Chain(STALE, 15, worlds);
    worlds := SlowStamps();
    Chain(STALE, 16, worlds);
  }

  lemma {:induction false} LateStampReached() returns (w: World)
    ensures Execute(INIT, STALE) == Some(w) && w.log == STALE_LOG
  {
    SlowStampedReached();
    var worlds := LateStamps();
    Chain(STALE, 17, worlds);
    assert STALE[..22] == STALE;
    w := worlds[5];
  }

  /** Run 1 measures after everybody else, and still its stamp covers what run 0 measured before it
      started: the stamp of run 0 had put that back. */
  lemma {:induction false} StaleStampRestoresOlderMeasurements()
    ensures Execute(INIT, STALE).Some?
    ensures var log := Execute(INIT, STALE).value.log;
            && log == STALE_LOG
            && log[9] == Measured(1) && log[10] == Stamped(0, "h", 4)
            && log[13] == Stamped(1, "h", 4) && log[4] == Measured(0)
            && LastRead(log[..13], 1) == 11 && !Holds(log, 1, 11) && Holds(log, 0, 11)
  {
    var w := LateStampReached();
    assert STALE_LOG[..13][11] == ReportRead(1, 4);
    StampedMeasurementsIff(STALE, w, 13, 1);
    StampedMeasurementsIff(STALE, w, 13, 0);
  }

  // ----- a failed status call counts as clean -----

  /** As before up to the point where run 0 may stamp; it does, the tree is edited, and query 1 reuses
      the report because its status call fails. */
  const UNASKED: seq<Action> := STALE[..11] + [
    Stamp(0, WriteStamp), Environment(ChangeTree(true)),
    Query(1, ReadQueryHead), Query(1, ReadQueryTree(false)), Query(1, ReadQueryReport)
  ]

  const UNASKED_LOG: Log := STALE_LOG[..7] + [
    Stamped(0, "h", 4), TreeChanged(true),
    QueryHead(1, "h"), QueryTree(1, false, false), Reused(1, "h", 4)
  ]

  function Edited(): World {
    World("h", true, NoMarker, Report(4, Some("h")), map["s" := SLOW_CLAIM], map[0 := Done], UNASKED_LOG[..9])
  }

  lemma {:induction false} StampThenEdit() returns (worlds: seq<World>)
    ensures |worlds| == 3 && LeadsThrough(UNASKED, 11, worlds)
    ensures worlds[0] == SlowVerified() && worlds[2] == Edited()
  {
    var w12 := Step(SlowVerified(), UNASKED[11]).value;
    var w13 := Step(w12, UNASKED[12]).value;
    worlds := [SlowVerified(), w12, w13];
    assert w13 == Edited();
  }

  lemma {:induction false} QueryUnanswered() returns (worlds: seq<World>)
    ensures |worlds| == 4 && LeadsThrough(UNASKED, 13, worlds)
    ensures worlds[0] == Edited() && worlds[3].log == UNASKED_LOG && worlds[3].dirty
  {
    var w14 := Step(Edited(), UNASKED[13]).value;
    var w15 := Step(w14, UNASKED[14]).value;
    var w16 := Step(w15, UNASKED[15]).value;
    worlds := [Edited(), w14, w15, w16];
  }

  lemma {:induction false} ReuseReached() returns (w: World)
    ensures Execute(INIT, UNASKED) == Some(w) && w.log == UNASKED_LOG && w.dirty
  {
    SlowVerifiedReached();
    assert UNASKED[..11] == STALE[..11];
    var worlds := StampThenEdit();
    Chain(UNASKED, 11, worlds);
    worlds := QueryUnanswered();
    Chain(UNASKED, 13, worlds);
    assert UNASKED[..16] == UNASKED;
    w := worlds[3];
  }

  /** The query reuses the report although the tree is dirty, was dirty when it asked, and was never
      called clean to it. */
  lemma {:induction false} FailedStatusReusesOverDirtyTree()
    ensures Execute(INIT, UNASKED).Some?
    ensures var w := Execute(INIT, UNASKED).value;
            && w.log == UNASKED_LOG && w.log[11] == Reused(1, "h", 4)
            && w.dirty && DirtyAfter(w.log[..10])
            && forall j :: j < 11 ==> !ReadClean(w.log, j, 1)
  {
    var w := ReuseReached();
    var b := CleanReuseIff(UNASKED, w, 11);
    assert StatusCall(w.log, 10, 1);
    assert w.log[..10][8] == TreeChanged(true);
  }
}
