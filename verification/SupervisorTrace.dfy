/** What a two-lane test run did, as a sequence of boundary events, and which events are allowed
    after which. */
module SupervisorTrace {
  import opened Options

  datatype Event =
    | Provisioned(seat: nat)
    | Spawned(lane: nat)
    | Reaped(lane: nat, status: int)
    | SignalArrived(signum: int)
    | Signalled(lane: nat, signum: int)
    | Checked(lane: nat, exited: bool, alive: bool)
    | Skipped(lane: nat)
    | LookupFailed(lane: nat)
    | TimedOut(lane: nat)
    | Polled(lane: nat, alive: bool)
    | Failed(escaping: bool)
    | ReleaseTried(seat: nat, status: int)
    | ReleaseRaised(seat: nat)
    | Paused(seat: nat)
    | PostRun(status: int)

  /** The run so far: seats held, lanes spawned, leaders reaped with their status, release attempts
      per seat, post-processing statuses, the recorded signal, and failed boundary calls. A failure
      is `escaping` when the runner's handlers do not catch it; `stuck` is the seat at which a call
      made for releasing it raised, which nothing catches; `late` says that a lane was started after a
      signal had arrived; `expired` is the lane whose wait has just timed out. */
  datatype Summary = Summary(seats: nat, spawned: nat, reaped: map<nat, int>, attempts: map<nat, seq<int>>,
                             posts: seq<int>, signal: Option<int>, failed: bool, escaping: bool, stuck: Option<nat>,
                             late: bool, expired: Option<nat>)

  const EMPTY: Summary := Summary(0, 0, map[], map[], [], None, false, false, None, false, None)

  const RELEASE_ATTEMPTS: nat := 5

  function Tries(s: Summary, seat: nat): seq<int> {
    if seat in s.attempts then s.attempts[seat] else []
  }

  function Apply(s: Summary, e: Event): Summary {
    match e
    case Provisioned(_) => s.(seats := s.seats + 1)
    case Spawned(_) => s.(spawned := s.spawned + 1, late := s.late || s.signal.Some?)
    case Reaped(lane, status) => s.(reaped := s.reaped[lane := status])
    case SignalArrived(signum) => s.(signal := Some(signum))
    case Signalled(_, _) => s.(expired := None)
    case Checked(_, _, _) => s
    case Skipped(_) => s
    case LookupFailed(_) => s.(expired := None)
    case TimedOut(lane) => s.(expired := Some(lane))
    case Polled(_, _) => s
    case Failed(escaping) => s.(failed := true, escaping := s.escaping || escaping)
    case ReleaseTried(seat, status) => s.(attempts := s.attempts[seat := Tries(s, seat) + [status]])
    case Paused(_) => s
    case ReleaseRaised(seat) => s.(failed := true, escaping := true, stuck := Some(seat))
    case PostRun(status) => s.(posts := s.posts + [status])
  }

  function Sum(log: seq<Event>): Summary {
    if log == [] then EMPTY else Apply(Sum(log[..|log| - 1]), log[|log| - 1])
  }

  /** Every spawned lane leader has been waited for. */
  predicate AllReaped(s: Summary) {
    forall lane :: 0 <= lane < s.spawned ==> lane in s.reaped
  }

  predicate AllZero(statuses: seq<int>) {
    forall i :: 0 <= i < |statuses| ==> statuses[i] == 0
  }

  /** Tried at least once, at most five times, and nothing but the last try succeeded. */
  predicate ProperlyTried(tries: seq<int>) {
    && 1 <= |tries| <= RELEASE_ATTEMPTS
    && (forall i :: 0 <= i < |tries| - 1 ==> tries[i] != 0)
    && (tries[|tries| - 1] == 0 || |tries| == RELEASE_ATTEMPTS)
  }

  predicate WasReleased(tries: seq<int>) {
    |tries| >= 1 && tries[|tries| - 1] == 0
  }

  predicate AllReleased(s: Summary) {
    forall seat :: 0 <= seat < s.seats ==> WasReleased(Tries(s, seat))
  }

  predicate AllProperlyTried(s: Summary) {
    forall seat :: 0 <= seat < s.seats ==> ProperlyTried(Tries(s, seat))
  }

  /** Tried less than five times, without success. */
  predicate BrokenOff(tries: seq<int>) {
    |tries| < RELEASE_ATTEMPTS && forall i :: 0 <= i < |tries| ==> tries[i] != 0
  }

  /** How releasing the seats ends: every seat properly tried, or, when a call raised, the seats
      before that one properly tried, that one broken off and the ones after it never tried. */
  predicate ReleasesEnded(s: Summary) {
    match s.stuck
    case None => AllProperlyTried(s)
    case Some(stuck) =>
      && stuck < s.seats && BrokenOff(Tries(s, stuck))
      && (forall seat :: 0 <= seat < stuck ==> ProperlyTried(Tries(s, seat)))
      && (forall seat :: stuck < seat < s.seats ==> Tries(s, seat) == [])
  }

  /** The next call for this seat may be made. */
  predicate MayTry(s: Summary, seat: nat) {
    && seat < s.seats && s.posts == [] && s.stuck.None?
    && (s.escaping || AllReaped(s))
    && BrokenOff(Tries(s, seat))
  }

  /** Everything post-processing depends on. */
  predicate Clean(lanes: nat, s: Summary) {
    && s.signal.None? && !s.failed
    && s.seats == lanes && s.spawned == lanes
    && (forall lane :: 0 <= lane < lanes ==> lane in s.reaped && s.reaped[lane] == 0)
    && AllReleased(s)
  }

  /** The order the runner must keep. */
  predicate Allowed(lanes: nat, s: Summary, e: Event) {
    && (s.expired.Some? ==> e == Signalled(s.expired.value, 9) || e == LookupFailed(s.expired.value))
    && match e
    case Provisioned(seat) => seat == s.seats < lanes && s.spawned == 0 && s.attempts == map[] && !s.failed
    case Spawned(lane) =>
      && lane == s.spawned < lanes && s.seats == lanes && s.attempts == map[] && s.posts == []
      && !s.failed && !s.late
    case Reaped(lane, _) => lane < s.spawned && s.attempts == map[] && !s.escaping
    case SignalArrived(_) => s.posts == []
    case Signalled(lane, _) => lane < s.spawned
    case Checked(lane, _, _) => lane < s.spawned
    case Skipped(lane) => lane < s.spawned
    case LookupFailed(lane) => lane < s.spawned
    case TimedOut(lane) => lane < s.spawned
    case Polled(lane, _) => lane < s.spawned && s.posts == []
    case Failed(_) => !s.escaping
    case ReleaseTried(seat, _) => MayTry(s, seat)
    case ReleaseRaised(seat) => MayTry(s, seat)
    case Paused(seat) => MayTry(s, seat)
    case PostRun(_) => Clean(lanes, s) && AllZero(s.posts)
  }

  /** Every event of the log was allowed by what came before it. */
  ghost predicate Ordered(lanes: nat, log: seq<Event>) {
    forall i {:trigger Allowed(lanes, Sum(log[..i]), log[i])} :: 0 <= i < |log| ==>
      Allowed(lanes, Sum(log[..i]), log[i])
  }

  lemma {:induction false} Appended(lanes: nat, log: seq<Event>, e: Event)
    requires Ordered(lanes, log) && Allowed(lanes, Sum(log), e)
    ensures Ordered(lanes, log + [e])
    ensures Sum(log + [e]) == Apply(Sum(log), e)
  {
    var log' := log + [e];
    assert log'[..|log|] == log;
    forall i | 0 <= i < |log'|
      ensures Allowed(lanes, Sum(log'[..i]), log'[i])
    {
      if i < |log| {
        assert log'[..i] == log[..i];
        assert Allowed(lanes, Sum(log[..i]), log[i]);
      }
    }
  }

  function Beginning(log: seq<Event>, n: nat): seq<Event>
    requires n <= |log|
  {
    log[..n]
  }

  /** `s` sums up the log. Said of the log's beginning of full length, so that users who only carry this
      along need not look into sums. */
  ghost predicate SumsUp(log: seq<Event>, s: Summary) {
    forall n: nat {:trigger Beginning(log, n)} :: n == |log| ==> Sum(Beginning(log, n)) == s
  }

  lemma {:induction false} SumOf(log: seq<Event>, s: Summary)
    ensures SumsUp(log, s) <==> Sum(log) == s
  {
    assert Beginning(log, |log|) == log;
  }

  // ----- how the summaries of successive moments relate -----

  /** The first `k` seats have been tried properly; `released` says whether all of them went. */
  predicate TriedUpTo(s: Summary, k: nat, released: bool) {
    && (forall seat :: 0 <= seat < k ==> ProperlyTried(Tries(s, seat)))
    && (forall seat :: seat in s.attempts ==> seat < k)
    && (released <==> forall seat :: 0 <= seat < k ==> WasReleased(Tries(s, seat)))
  }

  lemma {:induction false} TriedOneMore(s: Summary, t: Summary, k: nat, released: bool, tries: seq<int>)
    requires TriedUpTo(s, k, released) && t.attempts == s.attempts[k := tries] && ProperlyTried(tries)
    ensures TriedUpTo(t, k + 1, WasReleased(tries) && released)
  {
    assert Tries(t, k) == tries;
    forall seat | 0 <= seat < k
      ensures Tries(t, seat) == Tries(s, seat)
    {
    }
  }

  /** What the end of releasing says of each seat, in numbers. */
  lemma {:induction false} HowSeatsWereTried(s: Summary, seat: nat)
    requires ReleasesEnded(s) && seat < s.seats
    ensures var tries := Tries(s, seat);
            && (s.stuck.None? || seat < s.stuck.value ==>
                  && 1 <= |tries| <= 5 && (forall i :: 0 <= i < |tries| - 1 ==> tries[i] != 0)
                  && (tries[|tries| - 1] != 0 ==> |tries| == 5))
            && (s.stuck == Some(seat) ==> |tries| <= 4 && 0 !in tries)
            && (s.stuck.Some? && s.stuck.value < seat ==> tries == [])
  {
  }

  /** All seats were properly tried exactly when no call for releasing one raised. */
  lemma {:induction false} EndedIff(s: Summary)
    requires ReleasesEnded(s)
    ensures AllProperlyTried(s) <==> s.stuck.None?
  {
    if s.stuck.Some? {
      assert !ProperlyTried(Tries(s, s.stuck.value));
    }
  }

  lemma {:induction false} StuckEnds(s: Summary, t: Summary, k: nat, released: bool, tries: seq<int>)
    requires TriedUpTo(s, k, released) && k < s.seats && s.stuck.None? && BrokenOff(tries)
    requires t.attempts == (if tries == [] then s.attempts else s.attempts[k := tries])
    requires t.seats == s.seats && t.stuck == Some(k)
    ensures ReleasesEnded(t)
  {
    assert forall seat :: seat != k ==> Tries(t, seat) == Tries(s, seat);
    assert Tries(s, k) == [] && Tries(t, k) == tries;
  }

  /** Releases depend on nothing but seats, attempts and where they got stuck. */
  lemma {:induction false} SameReleases(s: Summary, t: Summary)
    requires t.seats == s.seats && t.attempts == s.attempts && t.stuck == s.stuck
    ensures AllReleased(t) == AllReleased(s) && AllProperlyTried(t) == AllProperlyTried(s)
    ensures ReleasesEnded(t) == ReleasesEnded(s)
  {
    assert forall seat :: Tries(t, seat) == Tries(s, seat);
  }

  lemma {:induction false} CleanBeforePosts(lanes: nat, s: Summary, t: Summary)
    requires Clean(lanes, s) && t == s.(posts := t.posts)
    ensures Clean(lanes, t)
  {
    SameReleases(s, t);
  }

  lemma {:induction false} CleanWhenAllGood(lanes: nat, s: Summary, statuses: seq<int>)
    requires s.signal.None? && !s.failed && s.seats == lanes && s.spawned == lanes && AllReleased(s)
    requires |statuses| == lanes && AllZero(statuses)
    requires forall i :: 0 <= i < lanes ==> i in s.reaped && s.reaped[i] == statuses[i]
    ensures Clean(lanes, s)
  {
  }

  // ----- what an ordered log says about times -----

  lemma {:induction false} SumStep(log: seq<Event>, i: nat)
    requires i < |log|
    ensures Sum(log[..i + 1]) == Apply(Sum(log[..i]), log[i])
  {
    assert log[..i + 1][..i] == log[..i];
  }

  /** What can only grow. */
  predicate Grown(s: Summary, t: Summary) {
    && s.seats <= t.seats && s.spawned <= t.spawned
    && s.reaped.Keys <= t.reaped.Keys
    && s.attempts.Keys <= t.attempts.Keys
    && (s.failed ==> t.failed)
    && (s.signal.Some? ==> t.signal.Some?)
    && (s.escaping ==> t.escaping)
    && (s.stuck.Some? ==> t.stuck.Some?)
    && (s.late ==> t.late)
  }

  lemma {:induction false} ApplyGrows(s: Summary, e: Event)
    ensures Grown(s, Apply(s, e))
  {
  }

  /** Nothing recorded is ever forgotten. */
  lemma {:induction false} SumGrows(log: seq<Event>, i: nat, j: nat)
    requires i <= j <= |log|
    ensures Grown(Sum(log[..i]), Sum(log[..j]))
    decreases j
  {
    if i < j {
      SumGrows(log, i, j - 1);
      SumStep(log, j - 1);
      ApplyGrows(Sum(log[..j - 1]), log[j - 1]);
    }
  }

  lemma {:induction false} NewReap(s: Summary, e: Event, lane: nat)
    requires lane in Apply(s, e).reaped
    ensures || e == Reaped(lane, Apply(s, e).reaped[lane])
            || (lane in s.reaped && s.reaped[lane] == Apply(s, e).reaped[lane])
  {
  }

  lemma {:induction false} PostStays(s: Summary, e: Event, t: Summary, status: int)
    requires t == Apply(s, e) && (status in s.posts || e == PostRun(status))
    ensures status in t.posts
  {
    if e == PostRun(status) {
      assert t.posts[|s.posts|] == status;
    }
  }

  lemma {:induction false} NewStuck(s: Summary, e: Event)
    ensures Apply(s, e).stuck.Some? <==> s.stuck.Some? || e.ReleaseRaised?
  {
  }

  /** A lane counted as reaped was reaped at some moment, with that status. */
  lemma {:induction false} ReapedAt(log: seq<Event>, j: nat, lane: nat) returns (k: nat)
    requires j <= |log| && lane in Sum(log[..j]).reaped
    ensures k < j && log[k] == Reaped(lane, Sum(log[..j]).reaped[lane])
  {
    var s, e := Sum(log[..j - 1]), log[j - 1];
    SumStep(log, j - 1);
    NewReap(s, e, lane);
    if e == Reaped(lane, Sum(log[..j]).reaped[lane]) {
      k := j - 1;
    } else {
      k := ReapedAt(log, j - 1, lane);
    }
  }

  lemma {:induction false} OtherTries(s: Summary, e: Event, seat: nat)
    requires !(e.ReleaseTried? && e.seat == seat)
    ensures Tries(Apply(s, e), seat) == Tries(s, seat)
  {
  }

  /** A seat's last try happened at some moment. */
  lemma {:induction false} TriedAt(log: seq<Event>, j: nat, seat: nat) returns (k: nat)
    requires j <= |log| && |Tries(Sum(log[..j]), seat)| >= 1
    ensures k < j && log[k] == ReleaseTried(seat, Tries(Sum(log[..j]), seat)[|Tries(Sum(log[..j]), seat)| - 1])
  {
    SumStep(log, j - 1);
    if log[j - 1].ReleaseTried? && log[j - 1].seat == seat {
      k := j - 1;
    } else {
      OtherTries(Sum(log[..j - 1]), log[j - 1], seat);
      k := TriedAt(log, j - 1, seat);
    }
  }

  /** No lane is spawned once a seat's release has begun. */
  lemma {:induction false} SpawnBeforeRelease(lanes: nat, log: seq<Event>, i: nat, j: nat)
    requires Ordered(lanes, log) && i < |log| && j < |log|
    requires log[i].Spawned? && (log[j].ReleaseTried? || log[j].ReleaseRaised?)
    ensures i < j
  {
    assert Allowed(lanes, Sum(log[..i]), log[i]);
    if j < i {
      ReleaseStays(log, j, i);
    }
  }

  lemma {:induction false} ReleaseStays(log: seq<Event>, j: nat, i: nat)
    requires j < i <= |log| && (log[j].ReleaseTried? || log[j].ReleaseRaised?)
    ensures Sum(log[..i]).attempts.Keys != {} || Sum(log[..i]).failed
  {
    SumStep(log, j);
    SumGrows(log, j + 1, i);
    assert log[j].ReleaseTried? ==> log[j].seat in Sum(log[..j + 1]).attempts.Keys;
  }

  /** A lane is reaped only after it was spawned. */
  lemma {:induction false} SpawnBeforeReap(lanes: nat, log: seq<Event>, i: nat, k: nat)
    requires Ordered(lanes, log) && i < |log| && k < |log|
    requires log[i].Spawned? && log[k].Reaped? && log[k].lane == log[i].lane
    ensures i < k
  {
    assert Allowed(lanes, Sum(log[..i]), log[i]);
    assert Allowed(lanes, Sum(log[..k]), log[k]);
    if k < i {
      SumGrows(log, k, i);
    }
  }

  /** In every run, when a wait for a leader timed out, the next thing is that its group is killed, or
      cannot be found. */
  lemma {:induction false} TimeoutKills(lanes: nat, log: seq<Event>, i: nat)
    requires Ordered(lanes, log) && i < |log| && log[i].TimedOut? && Sum(log).expired.None?
    ensures i + 1 < |log|
    ensures log[i + 1] == Signalled(log[i].lane, 9) || log[i + 1] == LookupFailed(log[i].lane)
  {
    SumStep(log, i);
    assert log[..|log|] == log;
    if i + 1 < |log| {
      assert Allowed(lanes, Sum(log[..i + 1]), log[i + 1]);
    }
  }

  /** In every run at most one more lane is started once a signal has arrived. */
  lemma {:induction false} OneLateStart(lanes: nat, log: seq<Event>, i: nat, j: nat, k: nat)
    requires Ordered(lanes, log) && i < j < k < |log|
    requires log[i].SignalArrived? && log[j].Spawned?
    ensures !log[k].Spawned?
  {
    SumStep(log, i);
    SumGrows(log, i + 1, j);
    SumStep(log, j);
    SumGrows(log, j + 1, k);
    assert Allowed(lanes, Sum(log[..k]), log[k]);
  }

  // ----- release and reaping -----

  /** Before moment `j` some lane was started and not reaped. */
  ghost predicate Unreaped(log: seq<Event>, j: nat)
    requires j <= |log|
  {
    exists i :: 0 <= i < j && log[i].Spawned?
                && forall k :: 0 <= k < j ==> !(log[k].Reaped? && log[k].lane == log[i].lane)
  }

  /** A lane counted as spawned was spawned at some moment. */
  lemma {:induction false} SpawnedAt(lanes: nat, log: seq<Event>, j: nat, lane: nat) returns (i: nat)
    requires Ordered(lanes, log) && j <= |log| && lane < Sum(log[..j]).spawned
    ensures i < j && log[i] == Spawned(lane)
  {
    SumStep(log, j - 1);
    assert Allowed(lanes, Sum(log[..j - 1]), log[j - 1]);
    if log[j - 1] == Spawned(lane) {
      i := j - 1;
    } else {
      i := SpawnedAt(lanes, log, j - 1, lane);
    }
  }

  lemma {:induction false} SpawnCounted(lanes: nat, log: seq<Event>, i: nat, j: nat)
    requires Ordered(lanes, log) && i < j <= |log| && log[i].Spawned?
    ensures log[i].lane < Sum(log[..j]).spawned
  {
    assert Allowed(lanes, Sum(log[..i]), log[i]);
    SumStep(log, i);
    SumGrows(log, i + 1, j);
  }

  lemma {:induction false} ReapCounted(log: seq<Event>, k: nat, j: nat)
    requires k < j <= |log| && log[k].Reaped?
    ensures log[k].lane in Sum(log[..j]).reaped
  {
    SumStep(log, k);
    SumGrows(log, k + 1, j);
    assert log[k].lane in Sum(log[..k + 1]).reaped.Keys;
  }

  lemma {:induction false} UnreapedIff(lanes: nat, log: seq<Event>, j: nat)
    requires Ordered(lanes, log) && j <= |log|
    ensures Unreaped(log, j) <==> !AllReaped(Sum(log[..j]))
  {
    var s := Sum(log[..j]);
    if !AllReaped(s) {
      var lane :| 0 <= lane < s.spawned && lane !in s.reaped;
      var i := SpawnedAt(lanes, log, j, lane);
      forall k | 0 <= k < j
        ensures !(log[k].Reaped? && log[k].lane == lane)
      {
        if log[k].Reaped? {
          ReapCounted(log, k, j);
        }
      }
    }
    if Unreaped(log, j) {
      var i :| 0 <= i < j && log[i].Spawned?
               && forall k :: 0 <= k < j ==> !(log[k].Reaped? && log[k].lane == log[i].lane);
      SpawnCounted(lanes, log, i, j);
      if log[i].lane in s.reaped {
        var k := ReapedAt(log, j, log[i].lane);
      }
    }
  }

  /** Once a failure escapes, no lane is started or reaped any more. */
  lemma {:induction false} EscapeFreezes(lanes: nat, log: seq<Event>, i: nat, j: nat)
    requires Ordered(lanes, log) && i <= j <= |log|
    requires Sum(log[..i]).escaping && Sum(log[..i]).failed
    ensures Sum(log[..j]).spawned == Sum(log[..i]).spawned && Sum(log[..j]).reaped == Sum(log[..i]).reaped
    decreases j
  {
    if i < j {
      EscapeFreezes(lanes, log, i, j - 1);
      SumGrows(log, i, j - 1);
      SumStep(log, j - 1);
      assert Allowed(lanes, Sum(log[..j - 1]), log[j - 1]);
    }
  }

  /** An escaping failure happened at some moment. */
  lemma {:induction false} EscapedAt(log: seq<Event>, j: nat) returns (i: nat)
    requires j <= |log| && Sum(log[..j]).escaping && Sum(log[..j]).stuck.None?
    ensures i < j && log[i] == Failed(true)
  {
    SumStep(log, j - 1);
    if log[j - 1] == Failed(true) {
      i := j - 1;
    } else {
      i := EscapedAt(log, j - 1);
    }
  }

  lemma {:induction false} EscapeKeepsUnreaped(lanes: nat, log: seq<Event>, i: nat, j: nat)
    requires Ordered(lanes, log) && i < j <= |log| && log[i] == Failed(true)
    ensures Unreaped(log, i) <==> Unreaped(log, j)
  {
    SumStep(log, i);
    EscapeFreezes(lanes, log, i + 1, j);
    UnreapedIff(lanes, log, i);
    UnreapedIff(lanes, log, j);
  }

  /** In every run, a seat is given up while a started lane is unreaped exactly when an escaping
      failure struck while a started lane was unreaped. */
  lemma {:induction false} EarlyReleaseIff(lanes: nat, log: seq<Event>, j: nat)
    requires Ordered(lanes, log) && j < |log| && (log[j].ReleaseTried? || log[j].ReleaseRaised?)
    ensures Unreaped(log, j) <==> exists i :: 0 <= i < j && log[i] == Failed(true) && Unreaped(log, i)
  {
    assert Allowed(lanes, Sum(log[..j]), log[j]);
    if Unreaped(log, j) {
      UnreapedIff(lanes, log, j);
      var i := EscapedAt(log, j);
      EscapeKeepsUnreaped(lanes, log, i, j);
    }
    forall i | 0 <= i < j && log[i] == Failed(true) && Unreaped(log, i)
      ensures Unreaped(log, j)
    {
      EscapeKeepsUnreaped(lanes, log, i, j);
    }
  }

  /** In every run, unless that happened, a seat is only given up after each lane leader, wherever in
      the run it was spawned, has been spawned and then reaped. */
  lemma {:induction false} ReleaseAfterReap(lanes: nat, log: seq<Event>, i: nat, j: nat)
    requires Ordered(lanes, log) && i < |log| && j < |log|
    requires log[i].Spawned? && (log[j].ReleaseTried? || log[j].ReleaseRaised?)
    requires forall f :: 0 <= f < j && log[f] == Failed(true) ==> !Unreaped(log, f)
    ensures exists k :: i < k < j && log[k].Reaped? && log[k].lane == log[i].lane
  {
    EarlyReleaseIff(lanes, log, j);
    SpawnBeforeRelease(lanes, log, i, j);
    var k :| 0 <= k < j && log[k].Reaped? && log[k].lane == log[i].lane;
    SpawnBeforeReap(lanes, log, i, k);
  }

  /** An uncaught failure while the two lanes run: both seats go and neither lane was waited for. */
  const EARLY_RELEASE: seq<Event> := [
    Provisioned(0), Provisioned(1), Spawned(0), Spawned(1), Failed(true), ReleaseTried(0, 0), ReleaseTried(1, 0)
  ]

  lemma {:induction false} EarlyReleaseHappens()
    ensures Ordered(2, EARLY_RELEASE) && Unreaped(EARLY_RELEASE, 5) && Unreaped(EARLY_RELEASE, 6)
    ensures ReleasesEnded(Sum(EARLY_RELEASE)) && AllReleased(Sum(EARLY_RELEASE))
  {
    var log := EARLY_RELEASE;
    FailureEscaped();
    Appended(2, log[..5], log[5]);
    Appended(2, log[..5] + [log[5]], log[6]);
    assert log == log[..5] + [log[5]] + [log[6]];
    assert log[2] == Spawned(0);
  }

  lemma {:induction false} FailureEscaped()
    ensures Ordered(2, EARLY_RELEASE[..5])
    ensures Sum(EARLY_RELEASE[..5]) == EMPTY.(seats := 2, spawned := 2, failed := true, escaping := true)
  {
    var log := EARLY_RELEASE;
    LanesStarted();
    Appended(2, log[..4], log[4]);
    assert log[..5] == log[..4] + [log[4]];
  }

  lemma {:induction false} LanesStarted()
    ensures Ordered(2, EARLY_RELEASE[..4])
    ensures Sum(EARLY_RELEASE[..4]) == EMPTY.(seats := 2, spawned := 2)
  {
    var log := EARLY_RELEASE;
    Appended(2, [], log[0]);
    Appended(2, [] + [log[0]], log[1]);
    Appended(2, [] + [log[0]] + [log[1]], log[2]);
    Appended(2, [] + [log[0]] + [log[1]] + [log[2]], log[3]);
    assert log[..4] == [] + [log[0]] + [log[1]] + [log[2]] + [log[3]];
  }

  /** The first seat's release raises: it is never tried to the end, and the second seat not at all. */
  const RAISED_RELEASE: seq<Event> := [Provisioned(0), Provisioned(1), Failed(false), ReleaseRaised(0)]

  lemma {:induction false} RaisedReleaseHappens()
    ensures Ordered(2, RAISED_RELEASE)
    ensures var s := Sum(RAISED_RELEASE);
            ReleasesEnded(s) && s.seats == 2 && Tries(s, 0) == [] && Tries(s, 1) == [] && !AllProperlyTried(s)
  {
    var log := RAISED_RELEASE;
    Appended(2, [], log[0]);
    Appended(2, [] + [log[0]], log[1]);
    Appended(2, [] + [log[0]] + [log[1]], log[2]);
    Appended(2, [] + [log[0]] + [log[1]] + [log[2]], log[3]);
    assert log == [] + [log[0]] + [log[1]] + [log[2]] + [log[3]];
    EndedIff(Sum(log));
  }

  /** Releasing got stuck exactly when some call for it raised. */
  lemma {:induction false} StuckIff(log: seq<Event>)
    ensures Sum(log).stuck.Some? <==> exists i :: 0 <= i < |log| && log[i].ReleaseRaised?
  {
    if log != [] {
      var shorter := log[..|log| - 1];
      StuckIff(shorter);
      NewStuck(Sum(shorter), log[|log| - 1]);
      assert forall i :: 0 <= i < |shorter| ==> shorter[i] == log[i];
    }
  }

  /** In every run, by the time a post-processing command starts no signal has arrived and no call
      has failed, every lane has exited 0 and every seat has been released. */
  lemma {:induction false} PostAfterEverything(lanes: nat, log: seq<Event>, j: nat)
    requires Ordered(lanes, log) && j < |log| && log[j].PostRun?
    ensures forall i :: 0 <= i < j ==> !log[i].SignalArrived? && !log[i].Failed? && !log[i].ReleaseRaised?
    ensures forall lane :: 0 <= lane < lanes ==> Reaped(lane, 0) in log[..j]
    ensures forall seat :: 0 <= seat < lanes ==> ReleaseTried(seat, 0) in log[..j]
    ensures forall i :: 0 <= i < j && log[i].PostRun? ==> log[i].status == 0
  {
    assert Allowed(lanes, Sum(log[..j]), log[j]);
    NothingWentWrong(log, j);
    LanesPassed(log, j, lanes);
    SeatsReleased(log, j);
    forall i | 0 <= i < j && log[i].PostRun?
      ensures log[i].status == 0
    {
      EarlierPosts(log, i, j);
    }
  }

  lemma {:induction false} NothingWentWrong(log: seq<Event>, j: nat)
    requires j <= |log| && !Sum(log[..j]).failed && Sum(log[..j]).signal.None?
    ensures forall i :: 0 <= i < j ==> !log[i].SignalArrived? && !log[i].Failed? && !log[i].ReleaseRaised?
  {
    forall i | 0 <= i < j
      ensures !log[i].SignalArrived? && !log[i].Failed? && !log[i].ReleaseRaised?
    {
      SumStep(log, i);
      SumGrows(log, i + 1, j);
    }
  }

  lemma {:induction false} LanesPassed(log: seq<Event>, j: nat, lanes: nat)
    requires j <= |log|
    requires forall lane :: 0 <= lane < lanes ==> lane in Sum(log[..j]).reaped && Sum(log[..j]).reaped[lane] == 0
    ensures forall lane :: 0 <= lane < lanes ==> Reaped(lane, 0) in log[..j]
  {
    forall lane | 0 <= lane < lanes
      ensures Reaped(lane, 0) in log[..j]
    {
      var k := ReapedAt(log, j, lane);
      assert log[..j][k] == Reaped(lane, 0);
    }
  }

  lemma {:induction false} SeatsReleased(log: seq<Event>, j: nat)
    requires j <= |log| && AllReleased(Sum(log[..j]))
    ensures forall seat :: 0 <= seat < Sum(log[..j]).seats ==> ReleaseTried(seat, 0) in log[..j]
  {
    forall seat | 0 <= seat < Sum(log[..j]).seats
      ensures ReleaseTried(seat, 0) in log[..j]
    {
      var k := TriedAt(log, j, seat);
      assert log[..j][k] == ReleaseTried(seat, 0);
    }
  }

  /** Post-processing statuses are kept in order. */
  lemma {:induction false} EarlierPosts(log: seq<Event>, i: nat, j: nat)
    requires i < j <= |log| && log[i].PostRun?
    ensures log[i].status in Sum(log[..j]).posts
    decreases j
  {
    if i < j - 1 {
      EarlierPosts(log, i, j - 1);
    }
    SumStep(log, j - 1);
    PostStays(Sum(log[..j - 1]), log[j - 1], Sum(log[..j]), log[i].status);
  }
}
