/** internal/observability/metrics.go: counters, and the arithmetic of the latency histogram. */
module Metrics {
  import opened Text

  datatype Counters = Counters(
    connectAttempts: int, reconnects: int,
    jobsSuccess: int, jobsError: int, totalLatencyMS: int,
    le100: int, le500: int, le1000: int, gt1000: int)

  const ZERO := Counters(0, 0, 0, 0, 0, 0, 0, 0, 0)

  datatype Snapshot = Snapshot(
    connectAttempts: int, reconnects: int, jobsSuccess: int, jobsError: int, avgLatencyMS: int,
    le100: int, le500: int, le1000: int, gt1000: int)

  /** The outcome of one job. */
  datatype Job = Job(success: bool, latencyMS: int)

  function AfterJob(c: Counters, j: Job): Counters {
    if !j.success then c.(jobsError := Wrap64(c.jobsError + 1))
    else
      var c := c.(jobsSuccess := Wrap64(c.jobsSuccess + 1),
                  totalLatencyMS := Wrap64(c.totalLatencyMS + j.latencyMS));
      if j.latencyMS <= 100 then c.(le100 := Wrap64(c.le100 + 1))
      else if j.latencyMS <= 500 then c.(le500 := Wrap64(c.le500 + 1))
      else if j.latencyMS <= 1000 then c.(le1000 := Wrap64(c.le1000 + 1))
      else c.(gt1000 := Wrap64(c.gt1000 + 1))
  }

  /** Go's integer division, which truncates toward zero. */
  function Quotient(a: int, b: int): int
    requires b > 0
  {
    if a >= 0 then a / b else 0 - (0 - a) / b
  }

  function SnapshotOf(c: Counters): Snapshot {
    Snapshot(c.connectAttempts, c.reconnects, c.jobsSuccess, c.jobsError,
             if c.jobsSuccess > 0 then Quotient(c.totalLatencyMS, c.jobsSuccess) else 0,
             c.le100, c.le500, c.le1000, c.gt1000)
  }

  class MetricsObject {
    var connectAttempts: int
    var reconnects: int
    var jobsSuccess: int
    var jobsError: int
    var totalLatencyMS: int
    var le100: int
    var le500: int
    var le1000: int
    var gt1000: int

    function Value(): Counters
      reads this
    {
      Counters(connectAttempts, reconnects, jobsSuccess, jobsError, totalLatencyMS, le100, le500, le1000, gt1000)
    }

    constructor ()
      ensures Value() == ZERO
    {
      connectAttempts, reconnects, jobsSuccess, jobsError, totalLatencyMS := 0, 0, 0, 0, 0;
      le100, le500, le1000, gt1000 := 0, 0, 0, 0;
    }

    method IncConnectAttempts()
      modifies this
      ensures Value() == old(Value()).(connectAttempts := Wrap64(old(connectAttempts) + 1))
    {
      connectAttempts := Wrap64(connectAttempts + 1);
    }

    method IncReconnects()
      modifies this
      ensures Value() == old(Value()).(reconnects := Wrap64(old(reconnects) + 1))
    {
      reconnects := Wrap64(reconnects + 1);
    }

    method RecordJob(success: bool, latencyMS: int)
      modifies this
      ensures Value() == AfterJob(old(Value()), Job(success, latencyMS))
    {
      if success {
        jobsSuccess := Wrap64(jobsSuccess + 1);
        totalLatencyMS := Wrap64(totalLatencyMS + latencyMS);
        if latencyMS <= 100 {
          le100 := Wrap64(le100 + 1);
        } else if latencyMS <= 500 {
          le500 := Wrap64(le500 + 1);
        } else if latencyMS <= 1000 {
          le1000 := Wrap64(le1000 + 1);
        } else {
          gt1000 := Wrap64(gt1000 + 1);
        }
      } else {
        jobsError := Wrap64(jobsError + 1);
      }
    }

    method TakeSnapshot() returns (s: Snapshot)
      ensures s == SnapshotOf(Value())
    {
      var avg := 0;
      if jobsSuccess > 0 {
        avg := Quotient(totalLatencyMS, jobsSuccess);
      }
      return Snapshot(connectAttempts, reconnects, jobsSuccess, jobsError, avg, le100, le500, le1000, gt1000);
    }
  }

  // ---- histories ---------------------------------------------------------------------------

  function AfterJobs(c: Counters, jobs: seq<Job>): Counters {
    if jobs == [] then c else AfterJob(AfterJobs(c, jobs[..|jobs| - 1]), jobs[|jobs| - 1])
  }

  /** The latencies of the successful jobs, in order. */
  function Latencies(jobs: seq<Job>): seq<int> {
    if jobs == [] then []
    else
      var before, last := Latencies(jobs[..|jobs| - 1]), jobs[|jobs| - 1];
      if last.success then before + [last.latencyMS] else before
  }

  function Sum(xs: seq<int>): int {
    if xs == [] then 0 else Sum(xs[..|xs| - 1]) + xs[|xs| - 1]
  }

  /** How many of the numbers are above `lo` and not above `hi`. */
  function CountIn(xs: seq<int>, lo: int, hi: int): nat {
    if xs == [] then 0
    else CountIn(xs[..|xs| - 1], lo, hi) + if lo < xs[|xs| - 1] <= hi then 1 else 0
  }

  function CountAbove(xs: seq<int>, lo: int): nat {
    if xs == [] then 0
    else CountAbove(xs[..|xs| - 1], lo) + if lo < xs[|xs| - 1] then 1 else 0
  }

  function CountUpTo(xs: seq<int>, hi: int): nat {
    if xs == [] then 0
    else CountUpTo(xs[..|xs| - 1], hi) + if xs[|xs| - 1] <= hi then 1 else 0
  }

  /** The latencies are not negative and their sum fits. */
  predicate NoOverflow(jobs: seq<Job>) {
    && (forall j | j in jobs && j.success :: 0 <= j.latencyMS)
    && Sum(Latencies(jobs)) <= MAX_INT64
  }

  lemma LatenciesOfPrefix(jobs: seq<Job>)
    requires jobs != [] && NoOverflow(jobs)
    ensures NoOverflow(jobs[..|jobs| - 1])
  {
    var last := jobs[|jobs| - 1];
    assert last in jobs;
    if last.success {
      var before := Latencies(jobs[..|jobs| - 1]);
      assert (before + [last.latencyMS])[..|before|] == before;
    }
  }

  /** Whatever the latencies, the counters are what the history says: the successes and failures are
      counted, and each bucket holds the successes in its range. */
  lemma {:induction false} CountersCount(jobs: seq<Job>)
    requires |jobs| <= MAX_INT64
    ensures var c, xs := AfterJobs(ZERO, jobs), Latencies(jobs);
      && c.jobsSuccess == |xs| && c.jobsError == |jobs| - |xs|
      && c.le100 == CountUpTo(xs, 100) && c.le500 == CountIn(xs, 100, 500)
      && c.le1000 == CountIn(xs, 500, 1000) && c.gt1000 == CountAbove(xs, 1000)
      && c.le100 + c.le500 + c.le1000 + c.gt1000 == c.jobsSuccess <= |jobs|
      && c.connectAttempts == c.reconnects == 0
  {
    hide Wrap64;
    if jobs != [] {
      var last := jobs[|jobs| - 1];
      CountersCount(jobs[..|jobs| - 1]);
      var before := Latencies(jobs[..|jobs| - 1]);
      var c := AfterJobs(ZERO, jobs[..|jobs| - 1]);
      if last.success {
        assert (before + [last.latencyMS])[..|before|] == before;
        AfterSmallJob(c, last);
      } else {
        WrapOfSmall(c.jobsError + 1);
      }
    }
  }

  /** And where the latencies do not overflow, the total is their sum. */
  lemma {:induction false} TotalIsSum(jobs: seq<Job>)
    requires NoOverflow(jobs)
    ensures AfterJobs(ZERO, jobs).totalLatencyMS == Sum(Latencies(jobs)) && 0 <= Sum(Latencies(jobs))
  {
    hide Wrap64;
    if jobs != [] {
      var last := jobs[|jobs| - 1];
      LatenciesOfPrefix(jobs);
      TotalIsSum(jobs[..|jobs| - 1]);
      if last.success {
        assert last in jobs;
        var before := Latencies(jobs[..|jobs| - 1]);
        assert (before + [last.latencyMS])[..|before|] == before;
        WrapOfSmall(Sum(Latencies(jobs)));
      }
    }
  }

  lemma WrapOfSmall(x: int)
    requires MIN_INT64 <= x <= MAX_INT64
    ensures Wrap64(x) == x
  {
  }

  lemma AfterSmallJob(c: Counters, j: Job)
    requires j.success && 0 <= c.jobsSuccess < MAX_INT64
    requires 0 <= c.le100 <= c.jobsSuccess && 0 <= c.le500 <= c.jobsSuccess
    requires 0 <= c.le1000 <= c.jobsSuccess && 0 <= c.gt1000 <= c.jobsSuccess
    ensures AfterJob(c, j)
            == c.(jobsSuccess := c.jobsSuccess + 1, totalLatencyMS := Wrap64(c.totalLatencyMS + j.latencyMS),
                  le100 := c.le100 + if j.latencyMS <= 100 then 1 else 0,
                  le500 := c.le500 + if 100 < j.latencyMS <= 500 then 1 else 0,
                  le1000 := c.le1000 + if 500 < j.latencyMS <= 1000 then 1 else 0,
                  gt1000 := c.gt1000 + if 1000 < j.latencyMS then 1 else 0)
  {
  }

  /** A total is at least what its buckets' lower ends add up to, and at most the upper ends when
      the open bucket is empty. */
  lemma {:induction false} BucketsBoundTotal(xs: seq<int>)
    requires forall i | 0 <= i < |xs| :: 0 <= xs[i]
    ensures var a, b, c, d := CountUpTo(xs, 100), CountIn(xs, 100, 500), CountIn(xs, 500, 1000), CountAbove(xs, 1000);
      && a + b + c + d == |xs|
      && 101 * b + 501 * c + 1001 * d <= Sum(xs)
      && (d == 0 ==> Sum(xs) <= 100 * a + 500 * b + 1000 * c)
  {
    if xs != [] {
      BucketsBoundTotal(xs[..|xs| - 1]);
    }
  }

  lemma {:induction false} LatenciesNonNegative(jobs: seq<Job>)
    requires forall j | j in jobs && j.success :: 0 <= j.latencyMS
    ensures forall i | 0 <= i < |Latencies(jobs)| :: 0 <= Latencies(jobs)[i]
  {
    if jobs != [] {
      assert jobs[|jobs| - 1] in jobs;
      LatenciesNonNegative(jobs[..|jobs| - 1]);
    }
  }

  /** The published average and histogram agree with every history that does not overflow. */
  lemma HistogramIsConsistent(jobs: seq<Job>)
    requires |jobs| <= MAX_INT64 && NoOverflow(jobs)
    ensures var s, total := SnapshotOf(AfterJobs(ZERO, jobs)), Sum(Latencies(jobs));
      && s.le100 + s.le500 + s.le1000 + s.gt1000 == s.jobsSuccess == |Latencies(jobs)|
      && s.jobsSuccess + s.jobsError == |jobs|
      && (s.jobsSuccess > 0 ==>
            s.avgLatencyMS * s.jobsSuccess <= total < (s.avgLatencyMS + 1) * s.jobsSuccess)
      && (s.jobsSuccess == 0 ==> s.avgLatencyMS == 0)
      && 101 * s.le500 + 501 * s.le1000 + 1001 * s.gt1000 <= total
      && (s.gt1000 == 0 ==> s.avgLatencyMS <= 1000)
  {
    CountersCount(jobs);
    TotalIsSum(jobs);
    LatenciesNonNegative(jobs);
    BucketsBoundTotal(Latencies(jobs));
    hide AfterJobs, Latencies, Sum, CountIn, CountAbove, CountUpTo, NoOverflow, SnapshotOf;
    AverageIsFloor(AfterJobs(ZERO, jobs));
  }

  lemma AverageIsFloor(c: Counters)
    requires 0 <= c.jobsSuccess && 0 <= c.totalLatencyMS
    ensures var s := SnapshotOf(c);
      && s == Snapshot(c.connectAttempts, c.reconnects, c.jobsSuccess, c.jobsError, s.avgLatencyMS,
                       c.le100, c.le500, c.le1000, c.gt1000)
      && (c.jobsSuccess == 0 ==> s.avgLatencyMS == 0)
      && (c.jobsSuccess > 0 ==>
            s.avgLatencyMS * c.jobsSuccess <= c.totalLatencyMS < (s.avgLatencyMS + 1) * c.jobsSuccess)
      && (c.totalLatencyMS <= 1000 * c.jobsSuccess ==> s.avgLatencyMS <= 1000)
  {
    if c.jobsSuccess > 0 {
      FloorBounds(c.totalLatencyMS, c.jobsSuccess);
      if c.totalLatencyMS <= 1000 * c.jobsSuccess {
        AverageBelow(c.totalLatencyMS, c.jobsSuccess, 1000);
      }
    }
  }

  /** The average truncates toward zero. */
  lemma QuotientTruncates(a: int, b: int)
    requires b > 0
    ensures var q := Quotient(a, b);
      if a >= 0 then q * b <= a < (q + 1) * b else (q - 1) * b < a <= q * b
  {
    if a < 0 {
      FloorBounds(0 - a, b);
    }
  }

  lemma FloorBounds(total: int, n: int)
    requires 0 <= total && 0 < n
    ensures (total / n) * n <= total < (total / n + 1) * n
  {
  }

  lemma AverageBelow(total: int, n: int, bound: int)
    requires 0 <= total <= bound * n && 0 < n
    ensures total / n <= bound
  {
  }
}
