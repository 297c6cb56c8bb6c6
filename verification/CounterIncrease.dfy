/** What a rate query reports over counter samples when counters restart. */
module CounterIncrease {

  /** Sum of the values just before each drop. */
  function LostAtDrops(samples: seq<real>): real {
    if |samples| < 2 then 0.0
    else
      var n := |samples|;
      LostAtDrops(samples[..n - 1]) + (if samples[n - 1] < samples[n - 2] then samples[n - 2] else 0.0)
  }

  /** The increase is the net change plus everything lost at resets. */
  method PrometheusIncrease(samples: seq<real>) returns (total: real)
    ensures |samples| > 0 ==> total == samples[|samples| - 1] - samples[0] + LostAtDrops(samples)
    ensures samples == [] ==> total == 0.0
  {
    total := 0.0;
    for i := 0 to |samples|
      invariant i == 0 ==> total == 0.0
      invariant i > 0 ==> total == samples[i - 1] - samples[0] + LostAtDrops(samples[..i])
    {
      if i > 0 {
        assert samples[..i + 1][..i] == samples[..i];
        if samples[i] >= samples[i - 1] {
          total := total + samples[i] - samples[i - 1];
        } else {
          total := total + samples[i];
        }
      }
    }
    assert samples[..|samples|] == samples;
  }

  ghost predicate Climbs(samples: seq<real>) {
    forall i :: 0 < i < |samples| ==> samples[i - 1] <= samples[i]
  }

  /** For non-negative samples nothing negative is ever lost, and nothing at all exactly when the
      series never drops. */
  lemma {:induction false} LossIff(samples: seq<real>)
    requires forall i :: 0 <= i < |samples| ==> samples[i] >= 0.0
    ensures LostAtDrops(samples) >= 0.0
    ensures LostAtDrops(samples) == 0.0 <==> Climbs(samples)
  {
    if |samples| >= 2 {
      var n := |samples|;
      LossIff(samples[..n - 1]);
      assert Climbs(samples) <==> Climbs(samples[..n - 1]) && samples[n - 2] <= samples[n - 1];
    }
  }

  /** Joining two series adds their losses, and the last value of the first if the second starts lower. */
  lemma {:induction false} LossJoins(a: seq<real>, b: seq<real>)
    requires a != [] && b != []
    ensures LostAtDrops(a + b)
            == LostAtDrops(a) + LostAtDrops(b) + (if b[0] < a[|a| - 1] then a[|a| - 1] else 0.0)
  {
    var n := |b| - 1;
    if n == 0 {
      assert (a + b)[..|a|] == a;
    } else {
      LossJoins(a, b[..n]);
      assert (a + b)[..|a| + n] == a + b[..n];
    }
  }

  /** One reset between two climbing series: the increase is the first one's net change plus all of what
      the second one reached. */
  lemma {:induction false} OneReset(a: seq<real>, b: seq<real>)
    requires a != [] && b != [] && Climbs(a) && Climbs(b) && b[0] < a[|a| - 1]
    ensures (a + b)[|a + b| - 1] - (a + b)[0] + LostAtDrops(a + b) == a[|a| - 1] - a[0] + b[|b| - 1]
  {
    LossJoins(a, b);
    ClimbLosesNothing(a);
    ClimbLosesNothing(b);
  }

  lemma {:induction false} ClimbLosesNothing(samples: seq<real>)
    requires Climbs(samples)
    ensures LostAtDrops(samples) == 0.0
  {
    if |samples| >= 2 {
      ClimbLosesNothing(samples[..|samples| - 1]);
    }
  }
}
