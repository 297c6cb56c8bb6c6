/** The supervisor of the two pytest lanes. Every call across the operating-system boundary may
    return anything, fail, or be interrupted by signals first; the log records what happened. */
module Supervisor {
  import opened Options
  import opened SupervisorTrace

  /** A boundary call that returned, or raised. */
  datatype Outcome = Returned(value: int) | Raised(escaping: bool)

  /** How a run ends: an exit status, or an exception leaving it. */
  datatype Result = Exit(code: int) | Escaped

  const SIGTERM := 15
  const SIGKILL := 9

  /** Only the record of arrived signals, and of signals passed on, differs. */
  ghost predicate OnlySignals(s: Summary, t: Summary) {
    t == s.(signal := t.signal) && (s.signal.Some? ==> t.signal.Some?)
  }

  /** Seats, lanes, releases and post-processing are as before; leaders may have been reaped. */
  ghost predicate Carries(s: Summary, t: Summary) {
    && t.seats == s.seats && t.spawned == s.spawned && t.attempts == s.attempts && t.posts == s.posts
    && t.stuck == s.stuck
    && s.reaped.Keys <= t.reaped.Keys
    && (s.signal.Some? ==> t.signal.Some?)
  }

  /** No boundary call failed in between. */
  ghost predicate NoNewFailure(s: Summary, t: Summary) {
    t.failed == s.failed && t.escaping == s.escaping
  }

  /** The first `n` lanes were reaped with these statuses. */
  ghost predicate StatusesAre(s: Summary, n: nat, statuses: seq<int>) {
    |statuses| == n && forall i :: 0 <= i < n ==> i in s.reaped && s.reaped[i] == statuses[i]
  }

  /** A boundary call: it returned after any number of signals, or then failed, for good where
      nothing is `caught`. */
  ghost predicate Called(s: Summary, t: Summary, caught: bool, r: Outcome) {
    match r
    case Returned(_) => OnlySignals(s, t)
    case Raised(escaping) =>
      (!caught ==> escaping) && exists u :: OnlySignals(s, u) && t == Apply(u, Failed(escaping))
  }

  /** Only tries for one seat, and arrived signals, were added. */
  ghost predicate OnlyTried(s: Summary, t: Summary, seat: nat, tries: seq<int>) {
    && t.attempts == (if tries == [] then s.attempts else s.attempts[seat := tries])
    && OnlySignals(s, t.(attempts := s.attempts))
  }

  /** As before, and then a call for this seat raised. */
  ghost predicate StuckAt(s: Summary, t: Summary, seat: nat, tries: seq<int>) {
    BrokenOff(tries) && exists u :: OnlyTried(s, u, seat, tries) && t == Apply(u, ReleaseRaised(seat))
  }

  /** From `at` on a log says what became of signalling one lane: its leader and group were looked at;
      where the leader had exited and the group was gone the lane was skipped, and otherwise it was
      signalled, or the group could not be found. */
  ghost predicate LaneSignalled(log: seq<Event>, at: nat, lane: nat, signum: int) {
    && at + 1 < |log| && log[at].Checked? && log[at].lane == lane
    && if log[at].exited && !log[at].alive then log[at + 1] == Skipped(lane)
       else log[at + 1] == Signalled(lane, signum) || log[at + 1] == LookupFailed(lane)
  }

  /** What was added to a log begins with signalling the first `n` lanes in order. */
  ghost predicate Forwarded(before: seq<Event>, after: seq<Event>, n: nat, signum: int) {
    && before <= after && |before| + 2 * n <= |after|
    && forall i :: 0 <= i < n ==> LaneSignalled(after, |before| + 2 * i, i, signum)
  }

  /** As far as some lane, where a call raised. */
  ghost predicate ForwardedToSome(before: seq<Event>, after: seq<Event>, n: nat, signum: int) {
    exists i: nat :: i < n && Forwarded(before, after, i, signum) && |after| <= |before| + 2 * i + 1
  }

  lemma {:induction false} StaysForwarded(before: seq<Event>, log: seq<Event>, after: seq<Event>, n: nat, signum: int)
    requires Forwarded(before, log, n, signum) && log <= after
    ensures Forwarded(before, after, n, signum)
  {
    forall i | 0 <= i < n
      ensures LaneSignalled(after, |before| + 2 * i, i, signum)
    {
      assert LaneSignalled(log, |before| + 2 * i, i, signum);
    }
  }

  /** Since `before`, the lane's group was found gone, or it was terminated and then killed. */
  ghost predicate GoneOrKilled(before: seq<Event>, after: seq<Event>, lane: nat) {
    || (exists i :: |before| <= i < |after| && after[i] == Polled(lane, false))
    || (exists i, j :: |before| <= i < j < |after| && after[i] == Signalled(lane, 15) && after[j] == Signalled(lane, 9))
  }

  lemma {:induction false} StaysGone(before: seq<Event>, log: seq<Event>, after: seq<Event>, lane: nat)
    requires GoneOrKilled(before, log, lane) && log <= after
    ensures GoneOrKilled(before, after, lane)
  {
  }

  lemma {:induction false} GoneSinceEarlier(before: seq<Event>, begun: seq<Event>, after: seq<Event>, n: nat)
    requires before <= begun && forall lane :: 0 <= lane < n ==> GoneOrKilled(begun, after, lane)
    ensures forall lane :: 0 <= lane < n ==> GoneOrKilled(before, after, lane)
  {
    forall lane | 0 <= lane < n
      ensures GoneOrKilled(before, after, lane)
    {
      assert GoneOrKilled(begun, after, lane);
    }
  }

  lemma {:induction false} PolledSinceEarlier(before: seq<Event>, begun: seq<Event>, after: seq<Event>, n: nat)
    requires before <= begun && PolledUpTo(begun, after, n)
    ensures PolledUpTo(before, after, n)
  {
    forall lane | 0 <= lane < n
      ensures PolledSince(before, after, lane)
    {
      assert PolledSince(begun, after, lane);
    }
  }

  /** Since `before`, the groups of the first `n` lanes were asked whether they live. */
  ghost predicate PolledUpTo(before: seq<Event>, after: seq<Event>, n: nat) {
    forall lane :: 0 <= lane < n ==> PolledSince(before, after, lane)
  }

  ghost predicate PolledSince(before: seq<Event>, after: seq<Event>, lane: nat) {
    exists i :: |before| <= i < |after| && after[i].Polled? && after[i].lane == lane
  }

  lemma {:induction false} StaysPolled(before: seq<Event>, log: seq<Event>, after: seq<Event>, n: nat)
    requires PolledUpTo(before, log, n) && log <= after
    ensures PolledUpTo(before, after, n)
  {
    forall lane | 0 <= lane < n
      ensures PolledSince(before, after, lane)
    {
      assert PolledSince(before, log, lane);
    }
  }

  ghost predicate ReapedUpTo(s: Summary, n: nat) {
    forall lane :: 0 <= lane < n ==> lane in s.reaped.Keys
  }

  /** The first lane, in order, that did not exit 0. */
  ghost predicate FirstFailed(s: Summary, lanes: nat, lane: int) {
    && 0 <= lane < lanes && lane in s.reaped && s.reaped[lane] != 0
    && forall i :: 0 <= i < lane ==> i in s.reaped && s.reaped[i] == 0
  }

  lemma {:induction false} FirstFailedStatus(s: Summary, lanes: nat, statuses: seq<int>)
    requires StatusesAre(s, lanes, statuses)
    ensures forall lane :: FirstFailed(s, lanes, lane) ==>
              s.reaped[lane] == statuses[lane] && statuses[lane] != 0 && AllZero(statuses[..lane])
  {
  }

  lemma {:induction false} TriedFurther(s: Summary, t: Summary, t': Summary, seat: nat, tries: seq<int>, now: seq<int>)
    requires OnlyTried(s, t, seat, tries) && OnlyTried(t, t', seat, now) && tries <= now
    ensures OnlyTried(s, t', seat, now)
  {
    if now != [] {
      assert t'.attempts == s.attempts[seat := now];
    }
  }

  lemma {:induction false} StuckFurther(s: Summary, t: Summary, t': Summary, seat: nat, tries: seq<int>, now: seq<int>)
    requires OnlyTried(s, t, seat, tries) && StuckAt(t, t', seat, now) && tries <= now
    ensures StuckAt(s, t', seat, now)
  {
    var u :| OnlyTried(t, u, seat, now) && t' == Apply(u, ReleaseRaised(seat));
    TriedFurther(s, t, u, seat, tries, now);
  }

  lemma {:induction false} EndsStuck(s: Summary, t: Summary, k: nat, released: bool, tries: seq<int>)
    requires TriedUpTo(s, k, released) && k < s.seats && s.stuck.None? && s.posts == [] && StuckAt(s, t, k, tries)
    ensures ReleasesEnded(t) && t.stuck.Some? && t.escaping && t.failed && t.posts == []
  {
    StuckEnds(s, t, k, released, tries);
  }

  lemma {:induction false} EndsTried(s: Summary, t: Summary, k: nat, released: bool, tries: seq<int>)
    requires TriedUpTo(s, k, released) && OnlyTried(s, t, k, tries) && ProperlyTried(tries)
    ensures TriedUpTo(t, k + 1, WasReleased(tries) && released)
    ensures OnlySignals(s.(attempts := map[]), t.(attempts := map[]))
  {
    TriedOneMore(s, t, k, released, tries);
  }

  class ParallelTestSupervisor {
    const lanes: nat
    var seats: seq<nat>
    var processes: seq<nat>
    var received: Option<int>
    ghost var log: seq<Event>
    ghost var sum: Summary

    constructor (n: nat)
      ensures Valid()
      ensures lanes == n && seats == [] && processes == [] && received == None && log == [] && sum == EMPTY
    {
      lanes, seats, processes, received, log, sum := n, [], [], None, [], EMPTY;
      SumOf([], EMPTY);
    }

    /** The object's fields agree with the log, and the log is in order. */
    ghost predicate Valid()
      reads this
    {
      && Ordered(lanes, log) && SumsUp(log, sum)
      && |seats| == sum.seats && (forall i :: 0 <= i < |seats| ==> seats[i] == i)
      && |processes| == sum.spawned
      && (forall i :: 0 <= i < |processes| ==> processes[i] == i)
      && received == sum.signal
      && (received.Some? ==> received.value in {1, 2, 15})
      && (sum.escaping ==> sum.failed)
      && sum.expired.None?
    }

    ghost method Note(e: Event)
      requires Ordered(lanes, log) && SumsUp(log, sum) && Allowed(lanes, sum, e)
      modifies this`log, this`sum
      ensures Ordered(lanes, log) && SumsUp(log, sum)
      ensures sum == Apply(old(sum), e) && log == old(log) + [e]
    {
      SumOf(log, sum);
      Appended(lanes, log, e);
      log := log + [e];
      sum := Apply(sum, e);
      SumOf(log, sum);
    }

    // ----- signals -----

    /** The handler: remember the signal, pass it to every group not known to be gone. A group call
        that raises leaves it, at whatever was interrupted. */
    method ForwardSignal(signum: int) returns (raised: bool)
      requires Valid() && sum.posts == [] && signum in {1, 2, 15}
      modifies this`received, this`log, this`sum
      ensures Valid() && OnlySignals(old(sum), sum) && received == Some(signum)
      ensures raised ==> ForwardedToSome(old(log) + [SignalArrived(signum)], log, |processes|, signum)
      ensures !raised ==>
                && Forwarded(old(log) + [SignalArrived(signum)], log, |processes|, signum)
                && |log| == |old(log)| + 1 + 2 * |processes|
    {
      received := Some(signum);
      Note(SignalArrived(signum));
      raised := SignalActiveGroups(signum);
    }

    method SignalActiveGroups(signum: int) returns (raised: bool)
      requires Valid()
      modifies this`log, this`sum
      ensures Valid() && sum == old(sum)
      ensures raised ==> ForwardedToSome(old(log), log, |processes|, signum)
      ensures !raised ==> Forwarded(old(log), log, |processes|, signum) && |log| == |old(log)| + 2 * |processes|
    {
      for i := 0 to |processes|
        invariant Valid() && sum == old(sum)
        invariant Forwarded(old(log), log, i, signum) && |log| == |old(log)| + 2 * i
      {
        ghost var before := log;
        raised := SignalLane(processes[i], signum);
        StaysForwarded(old(log), before, log, i, signum);
        if raised { return; }
      }
      return false;
    }

    /** One lane of that loop; a call that raises ends it before or after the leader was looked at. */
    method SignalLane(lane: nat, signum: int) returns (raised: bool)
      requires Valid() && lane < |processes|
      modifies this`log, this`sum
      ensures Valid() && sum == old(sum) && old(log) <= log
      ensures raised ==> |log| <= |old(log)| + 1
      ensures !raised ==> |log| == |old(log)| + 2 && LaneSignalled(log, |old(log)|, lane, signum)
    {
      raised := *;
      if raised { return; }
      var exited, alive := LookAt(lane);
      raised := *;
      if raised { return; }
      Deliver(lane, exited && !alive, signum);
    }

    method LookAt(lane: nat) returns (exited: bool, alive: bool)
      requires Valid() && lane < |processes|
      modifies this`log, this`sum
      ensures Valid() && sum == old(sum) && log == old(log) + [Checked(lane, exited, alive)]
    {
      exited, alive := *, *;
      Note(Checked(lane, exited, alive));
    }

    method Deliver(lane: nat, gone: bool, signum: int)
      requires Valid() && lane < |processes|
      modifies this`log, this`sum
      ensures Valid() && sum == old(sum) && old(log) <= log && |log| == |old(log)| + 1
      ensures if gone then log[|old(log)|] == Skipped(lane)
              else log[|old(log)|] == Signalled(lane, signum) || log[|old(log)|] == LookupFailed(lane)
    {
      var lost: bool := *;
      if gone {
        Note(Skipped(lane));
      } else if lost {
        Note(LookupFailed(lane));
      } else {
        Note(Signalled(lane, signum));
      }
    }

    /** Any number of signals may be handled before the next boundary call takes effect; a handler
        that raises takes its place. */
    method Interruptible() returns (raised: bool)
      requires Valid() && sum.posts == []
      modifies this`received, this`log, this`sum
      ensures Valid() && OnlySignals(old(sum), sum) && old(log) <= log
    {
      var arriving: nat := *;
      while arriving > 0
        invariant Valid() && OnlySignals(old(sum), sum) && old(log) <= log
      {
        var signum: int := *;
        if signum in {1, 2, 15} {
          raised := ForwardSignal(signum);
          if raised { return; }
        }
        arriving := arriving - 1;
      }
      return false;
    }

    // ----- boundary calls -----

    /** An exception, of one of the classes the run catches or not; `caught` says whether the run
        catches those here at all. */
    method Raise(caught: bool) returns (r: Outcome)
      requires Valid() && !sum.escaping
      modifies this`log, this`sum
      ensures Valid() && r.Raised? && sum == Apply(old(sum), Failed(r.escaping)) && (!caught ==> r.escaping)
      ensures old(log) <= log
    {
      var uncaught: bool := *;
      r := Raised(uncaught || !caught);
      Note(Failed(r.escaping));
    }

    /** A call that only succeeds or raises. */
    method Attempt(caught: bool) returns (r: Outcome)
      requires Valid() && sum.posts == [] && !sum.escaping
      modifies this`received, this`log, this`sum
      ensures Valid() && Called(old(sum), sum, caught, r) && old(log) <= log
    {
      var raised := Interruptible();
      var fails: bool := *;
      if raised || fails {
        ghost var u := sum;
        r := Raise(caught);
      } else {
        r := Returned(0);
      }
    }

    method Wait(lane: nat) returns (r: Outcome)
      requires Valid() && lane < |processes| && sum.attempts == map[] && sum.posts == [] && !sum.escaping
      modifies this`received, this`log, this`sum
      ensures Valid() && old(log) <= log
      ensures r.Returned? ==> exists t :: OnlySignals(old(sum), t) && sum == Apply(t, Reaped(lane, r.value))
      ensures r.Raised? ==> Called(old(sum), sum, true, r)
    {
      r := Attempt(true);
      if r.Returned? {
        var status: int := *;
        ghost var t := sum;
        Note(Reaped(lane, status));
        r := Returned(status);
      }
    }

    /** Whether the group vanished before the deadline, by the last poll made; how long that takes
        does not matter here. */
    method WaitForGroup(lane: nat, caught: bool) returns (r: Outcome, gone: bool)
      requires Valid() && lane < |processes| && sum.posts == [] && !sum.escaping
      modifies this`received, this`log, this`sum
      ensures Valid() && Called(old(sum), sum, caught, r) && old(log) <= log
      ensures r.Returned? ==> |log| > |old(log)| && log[|log| - 1] == Polled(lane, !gone)
    {
      var polls: nat := *;
      while true
        invariant Valid() && OnlySignals(old(sum), sum) && old(log) <= log
        decreases polls
      {
        r := Attempt(caught);
        if r.Raised? {
          return r, false;
        }
        var alive: bool := *;
        Note(Polled(lane, alive));
        if !alive || polls == 0 {
          return r, !alive;
        }
        polls := polls - 1;
      }
    }

    // ----- waiting and stopping -----

    method SignalAndPoll(lane: nat, signum: int) returns (r: Outcome, gone: bool)
      requires Valid() && lane < |processes| && sum.posts == [] && !sum.escaping
      modifies this`received, this`log, this`sum
      ensures Valid() && Called(old(sum), sum, true, r) && old(log) <= log
      ensures r.Returned? ==> |log| > |old(log)| && log[|log| - 1] == Polled(lane, !gone)
      ensures r.Returned? ==> exists i :: |old(log)| <= i < |log| && log[i] == Signalled(lane, signum)
    {
      gone := false;
      r := Attempt(true);
      if r.Returned? {
        Note(Signalled(lane, signum));
        ghost var at := |log| - 1;
        r, gone := WaitForGroup(lane, true);
        assert log[at] == Signalled(lane, signum);
      }
    }

    /** Terminate a lane's leftover group, then kill it. */
    method QuiesceGroup(lane: nat) returns (r: Outcome)
      requires Valid() && lane < |processes| && sum.posts == [] && !sum.escaping
      modifies this`received, this`log, this`sum
      ensures Valid() && Called(old(sum), sum, true, r) && old(log) <= log
      ensures r.Returned? ==> GoneOrKilled(old(log), log, lane)
    {
      var gone;
      r, gone := WaitForGroup(lane, true);
      if r.Raised? || gone { return; }
      r := TerminateGroup(lane);
    }

    method TerminateGroup(lane: nat) returns (r: Outcome)
      requires Valid() && lane < |processes| && sum.posts == [] && !sum.escaping
      modifies this`received, this`log, this`sum
      ensures Valid() && Called(old(sum), sum, true, r) && old(log) <= log
      ensures r.Returned? ==> GoneOrKilled(old(log), log, lane)
    {
      var gone;
      r, gone := SignalAndPoll(lane, SIGTERM);
      if r.Raised? || gone { return; }
      r, gone := SignalAndPoll(lane, SIGKILL);
    }

    /** Waits for every leader in turn; any of the waits may raise. */
    method WaitLeaders() returns (r: Outcome, statuses: seq<int>)
      requires Valid() && sum.attempts == map[] && sum.posts == [] && !sum.escaping
      modifies this`received, this`log, this`sum
      ensures Valid() && Carries(old(sum), sum) && old(log) <= log
      ensures r.Returned? ==> NoNewFailure(old(sum), sum) && StatusesAre(sum, |processes|, statuses)
      ensures r.Raised? ==> sum.failed && sum.escaping == (old(sum).escaping || r.escaping)
    {
      statuses := [];
      for i := 0 to |processes|
        invariant Valid() && Carries(old(sum), sum) && NoNewFailure(old(sum), sum) && old(log) <= log
        invariant StatusesAre(sum, i, statuses)
      {
        r := Wait(processes[i]);
        if r.Raised? { return; }
        statuses := statuses + [r.value];
      }
      r := Returned(0);
    }

    method QuiesceGroups() returns (r: Outcome)
      requires Valid() && sum.posts == [] && !sum.escaping
      modifies this`received, this`log, this`sum
      ensures Valid() && Called(old(sum), sum, true, r) && old(log) <= log
      ensures r.Returned? ==> forall lane :: 0 <= lane < |processes| ==> GoneOrKilled(old(log), log, lane)
    {
      for i := 0 to |processes|
        invariant Valid() && OnlySignals(old(sum), sum) && old(log) <= log
        invariant forall lane :: 0 <= lane < i ==> GoneOrKilled(old(log), log, lane)
      {
        ghost var before := log;
        r := QuiesceGroup(processes[i]);
        if r.Raised? { return; }
        forall lane | 0 <= lane < i
          ensures GoneOrKilled(old(log), log, lane)
        {
          StaysGone(old(log), before, log, lane);
        }
      }
      r := Returned(0);
    }

    /** Waits for every leader, then sees to it that no group of theirs lives on. */
    method WaitProcesses() returns (r: Outcome, statuses: seq<int>)
      requires Valid() && sum.attempts == map[] && sum.posts == [] && !sum.escaping
      modifies this`received, this`log, this`sum
      ensures Valid() && Carries(old(sum), sum)
      ensures r.Returned? ==> NoNewFailure(old(sum), sum) && StatusesAre(sum, |processes|, statuses)
      ensures r.Returned? ==> forall lane :: 0 <= lane < |processes| ==> GoneOrKilled(old(log), log, lane)
      ensures r.Raised? ==> sum.failed && sum.escaping == (old(sum).escaping || r.escaping)
    {
      r, statuses := WaitLeaders();
      if r.Raised? { return; }
      ghost var begun := log;
      r := QuiesceGroups();
      if r.Returned? {
        GoneSinceEarlier(old(log), begun, log, |processes|);
      }
    }

    /** The wait may time out; then the group is killed, unless it is gone, and waited for again. */
    method AwaitOrKill(lane: nat, caught: bool) returns (r: Outcome)
      requires Valid() && lane < |processes| && sum.posts == [] && !sum.escaping
      modifies this`received, this`log, this`sum
      ensures Valid() && Called(old(sum), sum, caught, r) && old(log) <= log
    {
      r := Attempt(caught);
      if r.Raised? { return; }
      var expired: bool := *;
      if expired {
        NoteTimeout(lane);
        r := Attempt(caught);
      }
    }

    /** The wait timed out: kill the group, unless it cannot be found. */
    method NoteTimeout(lane: nat)
      requires Valid() && lane < |processes|
      modifies this`log, this`sum
      ensures Valid() && sum == old(sum) && |log| == |old(log)| + 2
      ensures old(log) + [TimedOut(lane)] <= log
    {
      Note(TimedOut(lane));
      var lost: bool := *;
      if lost {
        Note(LookupFailed(lane));
      } else {
        Note(Signalled(lane, SIGKILL));
      }
    }

    /** Wait for one leader, killing its group when that takes too long. */
    method StopLeader(lane: nat, caught: bool) returns (r: Outcome)
      requires Valid() && lane < |processes| && sum.attempts == map[] && sum.posts == [] && !sum.escaping
      modifies this`received, this`log, this`sum
      ensures Valid() && old(log) <= log
      ensures r.Returned? ==> Carries(old(sum), sum) && NoNewFailure(old(sum), sum) && lane in sum.reaped
      ensures r.Raised? ==> Called(old(sum), sum, caught, r)
    {
      r := AwaitOrKill(lane, caught);
      if r.Raised? { return; }
      var status: int := *;
      Note(Reaped(lane, status));
    }

    method StopLeaders(caught: bool) returns (r: Outcome)
      requires Valid() && sum.attempts == map[] && sum.posts == [] && !sum.escaping
      modifies this`received, this`log, this`sum
      ensures Valid() && Carries(old(sum), sum) && old(log) <= log
      ensures r.Returned? ==> NoNewFailure(old(sum), sum) && AllReaped(sum)
      ensures r.Raised? ==> sum.failed && sum.escaping == r.escaping && (!caught ==> r.escaping)
    {
      for i := 0 to |processes|
        invariant Valid() && Carries(old(sum), sum) && NoNewFailure(old(sum), sum) && old(log) <= log
        invariant ReapedUpTo(sum, i)
      {
        r := StopLeader(processes[i], caught);
        if r.Raised? { return; }
      }
      r := Returned(0);
    }

    method AwaitGroups(caught: bool) returns (r: Outcome)
      requires Valid() && sum.posts == [] && !sum.escaping
      modifies this`received, this`log, this`sum
      ensures Valid() && Called(old(sum), sum, caught, r) && old(log) <= log
      ensures r.Returned? ==> PolledUpTo(old(log), log, |processes|)
    {
      for i := 0 to |processes|
        invariant Valid() && OnlySignals(old(sum), sum) && old(log) <= log && PolledUpTo(old(log), log, i)
      {
        ghost var before := log;
        var gone;
        r, gone := WaitForGroup(processes[i], caught);
        if r.Raised? { return; }
        StaysPolled(old(log), before, log, i);
        assert log[|log| - 1] == Polled(i, !gone);
      }
      r := Returned(0);
    }

    /** Terminate every group and wait for every leader. Inside the run's handler nothing catches what
        these calls raise. */
    method StopProcesses(caught: bool) returns (r: Outcome)
      requires Valid() && sum.attempts == map[] && sum.posts == [] && !sum.escaping
      modifies this`received, this`log, this`sum
      ensures Valid() && Carries(old(sum), sum)
      ensures r.Returned? ==> NoNewFailure(old(sum), sum) && AllReaped(sum)
      ensures r.Returned? ==> Forwarded(old(log), log, |processes|, 15) && PolledUpTo(old(log), log, |processes|)
      ensures r.Raised? ==> sum.failed && sum.escaping == r.escaping && (!caught ==> r.escaping)
    {
      var raised := SignalActiveGroups(SIGTERM);
      if raised {
        r := Raise(caught);
        return;
      }
      ghost var signalled := log;
      r := StopLeaders(caught);
      if r.Raised? { return; }
      ghost var begun := log;
      r := AwaitGroups(caught);
      StaysForwarded(old(log), signalled, log, |processes|, 15);
      if r.Returned? {
        PolledSinceEarlier(old(log), begun, log, |processes|);
      }
    }

    // ----- releasing seats -----

    /** One call for a seat, to release it or to sleep before the next try: it may raise. */
    method ReleaseCall(seat: nat, ghost tries: seq<int>) returns (raised: bool)
      requires Valid() && MayTry(sum, seat) && OnlyTried(sum, sum, seat, tries) && BrokenOff(tries)
      modifies this`received, this`log, this`sum
      ensures Valid()
      ensures !raised ==> OnlySignals(old(sum), sum)
      ensures raised ==> StuckAt(old(sum), sum, seat, tries)
    {
      raised := Interruptible();
      var fails: bool := *;
      raised := raised || fails;
      if raised {
        ghost var u := sum;
        assert OnlyTried(old(sum), u, seat, tries);
        Note(ReleaseRaised(seat));
      }
    }

    method TryRelease(seat: nat, ghost tries: seq<int>) returns (r: Outcome, ghost now: seq<int>)
      requires Valid() && MayTry(sum, seat) && Tries(sum, seat) == tries
      modifies this`received, this`log, this`sum
      ensures Valid()
      ensures r.Returned? ==> now == tries + [r.value] && OnlyTried(old(sum), sum, seat, now)
      ensures r.Raised? ==> now == tries && StuckAt(old(sum), sum, seat, now)
    {
      assert OnlyTried(sum, sum, seat, tries);
      var raised := ReleaseCall(seat, tries);
      if raised {
        return Raised(true), tries;
      }
      var status: int := *;
      Note(ReleaseTried(seat, status));
      return Returned(status), tries + [status];
    }

    /** One try, and the pause after it when there will be another. */
    method ReleaseTurn(seat: nat, attempt: nat, ghost tries: seq<int>) returns (r: Outcome, ghost now: seq<int>)
      requires Valid() && MayTry(sum, seat) && Tries(sum, seat) == tries && |tries| == attempt
      modifies this`received, this`log, this`sum
      ensures Valid() && tries <= now
      ensures r.Returned? ==> now == tries + [r.value] && OnlyTried(old(sum), sum, seat, now)
      ensures r.Returned? && r.value != 0 && attempt < 4 ==> |log| > 0 && log[|log| - 1] == Paused(seat)
      ensures r.Raised? ==> StuckAt(old(sum), sum, seat, now)
    {
      r, now := TryRelease(seat, tries);
      if r.Returned? && r.value != 0 && attempt + 1 < RELEASE_ATTEMPTS {
        ghost var before := sum;
        assert Tries(sum, seat) == now && OnlyTried(sum, sum, seat, now);
        var raised := ReleaseCall(seat, now);
        if raised {
          StuckFurther(old(sum), before, sum, seat, now, now);
          r := Raised(true);
        } else {
          Note(Paused(seat));
        }
      }
    }

    /** Up to five tries for one seat, stopping at the first success; a call that raises ends it. */
    method ReleaseSeat(seat: nat) returns (raised: bool, released: bool, ghost tries: seq<int>)
      requires Valid() && MayTry(sum, seat) && seat !in sum.attempts
      modifies this`received, this`log, this`sum
      ensures Valid()
      ensures !raised ==>
                OnlyTried(old(sum), sum, seat, tries) && ProperlyTried(tries) && released == WasReleased(tries)
      ensures raised ==> StuckAt(old(sum), sum, seat, tries)
    {
      raised, released, tries := false, false, [];
      for attempt := 0 to RELEASE_ATTEMPTS
        invariant Valid() && OnlyTried(old(sum), sum, seat, tries)
        invariant |tries| == attempt && forall i :: 0 <= i < attempt ==> tries[i] != 0
      {
        ghost var before := sum;
        ghost var now;
        var r;
        r, now := ReleaseTurn(seat, attempt, tries);
        if r.Raised? {
          StuckFurther(old(sum), before, sum, seat, tries, now);
          return true, false, now;
        }
        TriedFurther(old(sum), before, sum, seat, tries, now);
        tries := now;
        if r.value == 0 {
          return false, true, tries;
        }
      }
    }

    /** Every seat in turn, up to the first call that raises. */
    method ReleaseSeats() returns (raised: bool, released: bool)
      requires Valid() && sum.attempts == map[] && sum.posts == [] && sum.stuck.None?
      requires sum.escaping || AllReaped(sum)
      modifies this`received, this`log, this`sum
      ensures Valid() && ReleasesEnded(sum)
      ensures !raised ==> released == AllReleased(sum) && OnlySignals(old(sum), sum.(attempts := map[]))
      ensures raised ==> sum.stuck.Some? && sum.escaping && sum.failed && sum.posts == []
    {
      raised, released := false, true;
      for k := 0 to |seats|
        invariant Valid() && OnlySignals(old(sum), sum.(attempts := map[]))
        invariant TriedUpTo(sum, k, released)
      {
        ghost var before := sum;
        var one;
        ghost var tries;
        raised, one, tries := ReleaseSeat(seats[k]);
        if raised {
          EndsStuck(before, sum, k, released, tries);
          return;
        }
        EndsTried(before, sum, k, released, tries);
        released := one && released;
      }
    }

    // ----- the lanes -----

    method ProvisionSeats() returns (r: Outcome)
      requires Valid() && sum == EMPTY
      modifies this`seats, this`received, this`log, this`sum
      ensures Valid() && sum.seats <= lanes && sum.spawned == 0 && sum.attempts == map[] && sum.posts == []
      ensures sum.stuck.None? && !sum.late
      ensures r.Returned? ==> sum.seats == lanes && !sum.failed
      ensures r.Raised? ==> sum.failed && sum.escaping == r.escaping
    {
      for lane := 0 to lanes
        invariant Valid() && sum.seats == lane && sum.spawned == 0 && sum.attempts == map[] && sum.posts == []
        invariant !sum.failed && sum.stuck.None? && !sum.late && |seats| == lane
      {
        r := Attempt(true);
        if r.Raised? { return; }
        Note(Provisioned(lane));
        seats := seats + [lane];
      }
      r := Returned(0);
    }

    method SpawnLanes() returns (r: Outcome)
      requires Valid() && sum.seats == lanes && sum.spawned == 0 && sum.attempts == map[] && sum.posts == []
      requires !sum.failed && sum.stuck.None? && !sum.late
      modifies this`processes, this`received, this`log, this`sum
      ensures Valid() && sum.seats == lanes && sum.attempts == map[] && sum.posts == [] && sum.stuck.None?
      ensures r.Returned? ==> !sum.failed && (sum.spawned == lanes || sum.signal.Some?)
      ensures r.Raised? ==> sum.failed && sum.escaping == r.escaping
    {
      for lane := 0 to lanes
        invariant Valid() && sum.seats == lanes && sum.spawned == lane && sum.attempts == map[] && sum.posts == []
        invariant !sum.failed && sum.stuck.None? && |processes| == lane && (sum.late ==> sum.signal.Some?)
      {
        if received.Some? {
          return Returned(0);
        }
        r := Attempt(true);
        if r.Raised? { return; }
        Note(Spawned(lane));
        processes := processes + [lane];
      }
      r := Returned(0);
    }

    /** The body of the inner try block. `interrupted` says that not every lane was started. */
    method RunLanes() returns (r: Outcome, statuses: seq<int>, interrupted: bool)
      requires Valid() && sum == EMPTY
      modifies this`seats, this`processes, this`received, this`log, this`sum
      ensures Valid() && sum.attempts == map[] && sum.posts == [] && sum.stuck.None?
      ensures r.Raised? ==> sum.failed && sum.escaping == r.escaping
      ensures r.Returned? ==> !sum.failed && AllReaped(sum)
      ensures r.Returned? && interrupted ==> sum.signal.Some?
      ensures r.Returned? && !interrupted ==>
                sum.seats == lanes && sum.spawned == lanes && StatusesAre(sum, lanes, statuses)
    {
      statuses, interrupted := [], false;
      r := ProvisionSeats();
      if r.Raised? { return; }
      r := Attempt(true);
      if r.Raised? { return; }
      r := SpawnLanes();
      if r.Raised? { return; }
      if |processes| == lanes {
        r, statuses := WaitProcesses();
      } else {
        interrupted := true;
        r := StopProcesses(true);
      }
    }

    // ----- post-processing and the run -----

    /** Runs the commands in order up to the first that fails; the signal handlers are gone by now. */
    method Postprocess(commands: nat) returns (r: Result)
      requires Valid() && Clean(lanes, sum) && sum.posts == []
      modifies this`log, this`sum
      ensures Valid() && old(sum) == sum.(posts := [], failed := false, escaping := false)
      ensures r == Exit(0) <==> !sum.failed && |sum.posts| == commands && AllZero(sum.posts)
      ensures (r == Escaped <==> sum.escaping) && sum.failed == sum.escaping
      ensures !sum.failed && sum.posts != [] ==> r == Exit(sum.posts[|sum.posts| - 1])
    {
      for i := 0 to commands
        invariant Valid() && old(sum) == sum.(posts := []) && |sum.posts| == i && AllZero(sum.posts)
      {
        var raises: bool := *;
        if raises {
          Note(Failed(true));
          return Escaped;
        }
        var status: int := *;
        CleanBeforePosts(lanes, old(sum), sum);
        Note(PostRun(status));
        if status != 0 {
          assert sum.posts[i] != 0;
          return Exit(status);
        }
      }
      return Exit(0);
    }

    /** First failing lane's status, as an exit code; 0 when all lanes passed. */
    static method ChildFailure(statuses: seq<int>) returns (code: int)
      ensures code == 0 <==> AllZero(statuses)
      ensures forall i :: 0 <= i < |statuses| && statuses[i] > 0 && AllZero(statuses[..i]) ==> code == statuses[i]
      ensures forall i :: 0 <= i < |statuses| && statuses[i] < 0 && AllZero(statuses[..i]) ==> code == 128 - statuses[i]
    {
      for i := 0 to |statuses|
        invariant forall j :: 0 <= j < i ==> statuses[j] == 0
      {
        if statuses[i] != 0 {
          return if statuses[i] > 0 then statuses[i] else 128 - statuses[i];
        }
      }
      return 0;
    }

    /** The try blocks with their handlers: lanes run, stopped on failure, seats released. The signal
        handlers stay installed to the very end. */
    method RunAndRelease() returns (outcome: Outcome, statuses: seq<int>, runtimeError: bool, released: bool)
      requires Valid() && sum == EMPTY
      modifies this
      ensures Valid() && sum.posts == [] && ReleasesEnded(sum)
      ensures sum.escaping == (outcome.Raised? && outcome.escaping)
      ensures !sum.escaping ==> AllReaped(sum) && released == AllReleased(sum)
      ensures sum.failed ==> sum.escaping || runtimeError
      ensures runtimeError ==> sum.failed
      ensures !sum.failed && sum.signal.None? ==>
                !runtimeError && sum.seats == lanes && sum.spawned == lanes && StatusesAre(sum, lanes, statuses)
    {
      var interrupted;
      outcome, statuses, interrupted := RunLanes();
      runtimeError := interrupted && received.None?;
      if outcome.Raised? && !outcome.escaping {
        runtimeError := true;
        var stopped := StopProcesses(false);
        if stopped.Raised? {
          outcome := stopped;
        }
      }
      var raised;
      raised, released := ReleaseSeats();
      if raised {
        outcome := Raised(true);
      }
      ghost var before := sum;
      var late := Interruptible();
      SameReleases(before, sum);
      if late && !(outcome.Raised? && outcome.escaping) {
        outcome := Raise(false);
        SameReleases(before, sum);
      }
    }

    /** Runs both lanes, cleans up on every path, and only then combines coverage. */
    method Run(token: Option<string>) returns (r: Result)
      requires Valid() && sum == EMPTY
      modifies this
      ensures Valid() && ReleasesEnded(sum)
      ensures AllProperlyTried(sum) <==> forall i :: 0 <= i < |log| ==> !log[i].ReleaseRaised?
      ensures r == Exit(0) <==> Clean(lanes, sum) && AllZero(sum.posts)
                                && |sum.posts| == (if token.Some? then 6 else 5)
      ensures r == Escaped <==> sum.escaping
      ensures sum.signal.Some? ==> sum.signal.value in {1, 2, 15}
      ensures sum.signal.Some? && !sum.escaping ==> r == Exit(128 + sum.signal.value)
      ensures sum.signal.None? && !sum.escaping && (sum.failed || !AllReleased(sum)) ==> r == Exit(1)
      ensures sum.signal.None? && !sum.failed && AllReleased(sum) ==>
                forall lane :: FirstFailed(sum, lanes, lane) ==>
                  && (sum.reaped[lane] > 0 ==> r == Exit(sum.reaped[lane]))
                  && (sum.reaped[lane] < 0 ==> r == Exit(128 - sum.reaped[lane]))
      ensures !sum.failed && sum.posts != [] ==> r == Exit(sum.posts[|sum.posts| - 1])
    {
      var outcome, statuses, runtimeError, released := RunAndRelease();
      EndedIff(sum);
      SumOf(log, sum);
      StuckIff(log);
      if outcome.Raised? && outcome.escaping {
        return Escaped;
      }
      if received.Some? {
        return Exit(128 + received.value);
      }
      if runtimeError || !released {
        return Exit(1);
      }
      var childFailure := ChildFailure(statuses);
      if childFailure != 0 {
        FirstFailedStatus(sum, lanes, statuses);
        return Exit(childFailure);
      }
      CleanWhenAllGood(lanes, sum, statuses);
      ghost var before := sum;
      r := Postprocess(if token.Some? then 6 else 5);
      SameReleases(before, sum);
      EndedIff(sum);
      SumOf(log, sum);
      StuckIff(log);
      if !sum.failed {
        CleanBeforePosts(lanes, before, sum);
      }
    }
  }
}
