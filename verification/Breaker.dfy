/** The adaptive circuit breaker: requests are dropped with probability
    max(0, (total - K*accepts) / (total + 1)) over the rolling window. */
module Breaker {
  import opened Arithmetic
  import opened RollingRing

  datatype Config = Config(k: real, buckets: int, bucketTimeMs: int, minReqs: int)

  const DEFAULTS := Config(1.5, 40, 250, 100)
  const NANOS_PER_MILLI := 1_000_000

  /** Every field that cannot be used is replaced by its default; the others are kept. */
  function Normalized(config: Config): (r: Config)
    ensures Usable(r)
    ensures config.k > 0.0 ==> r.k == config.k
    ensures config.buckets > 0 ==> r.buckets == config.buckets
    ensures config.bucketTimeMs > 0 ==> r.bucketTimeMs == config.bucketTimeMs
    ensures config.minReqs > 0 ==> r.minReqs == config.minReqs
    ensures config.k <= 0.0 ==> r.k == 1.5
    ensures config.buckets <= 0 ==> r.buckets == 40
    ensures config.bucketTimeMs <= 0 ==> r.bucketTimeMs == 250
    ensures config.minReqs <= 0 ==> r.minReqs == 100
  {
    Config(
      if config.k <= 0.0 then DEFAULTS.k else config.k,
      if config.buckets <= 0 then DEFAULTS.buckets else config.buckets,
      if config.bucketTimeMs <= 0 then DEFAULTS.bucketTimeMs else config.bucketTimeMs,
      if config.minReqs <= 0 then DEFAULTS.minReqs else config.minReqs)
  }

  predicate Usable(config: Config) {
    config.k > 0.0 && config.buckets > 0 && config.bucketTimeMs > 0 && config.minReqs > 0
  }

  function BucketTime(config: Config): int {
    config.bucketTimeMs * NANOS_PER_MILLI
  }

  // ---- Totals -----------------------------------------------------------------

  datatype Bucket = Bucket(accepts: int, total: int)

  const EMPTY := Bucket(0, 0)

  function Plus(a: Bucket, b: Bucket): Bucket {
    Bucket(a.accepts + b.accepts, a.total + b.total)
  }

  function SumOf(buckets: seq<Bucket>): Bucket {
    if buckets == [] then EMPTY else Plus(SumOf(buckets[..|buckets| - 1]), buckets[|buckets| - 1])
  }

  /** Totals over exactly the logged outcomes that are still in the window. */
  function WindowTotal(log: Log<Bucket>, size: nat): Bucket
    decreases |log.entries|
  {
    if log.entries == [] then EMPTY
    else
      var last := log.entries[|log.entries| - 1];
      var before := WindowTotal(log.(entries := log.entries[..|log.entries| - 1]), size);
      if InWindow(log, size, last) then Plus(before, last.value) else before
  }

  lemma {:induction false} SumOfUpdate(buckets: seq<Bucket>, i: nat, delta: Bucket)
    requires i < |buckets|
    ensures SumOf(buckets[i := Plus(buckets[i], delta)]) == Plus(SumOf(buckets), delta)
  {
    var n := |buckets| - 1;
    var updated := buckets[i := Plus(buckets[i], delta)];
    if i < n {
      assert updated[..n] == buckets[..n][i := Plus(buckets[i], delta)];
      SumOfUpdate(buckets[..n], i, delta);
    } else {
      assert updated[..n] == buckets[..n];
    }
  }

  lemma {:induction false} SumOfEmpties(buckets: seq<Bucket>)
    requires forall i | 0 <= i < |buckets| :: buckets[i] == EMPTY
    ensures SumOf(buckets) == EMPTY
  {
    if |buckets| > 0 {
      var before := buckets[..|buckets| - 1];
      assert forall i | 0 <= i < |before| :: before[i] == buckets[i];
      SumOfEmpties(before);
    }
  }

  ghost predicate Represents(buckets: seq<Bucket>, log: Log<Bucket>) {
    && |buckets| > 0
    && (forall e | e in log.entries :: e.rotation <= log.rotation)
    && forall r | log.rotation - |buckets| < r <= log.rotation ::
        buckets[r % |buckets|] == BucketOf(EMPTY, Plus, log.entries, r)
  }

  /** The ring refines the log: adding up its buckets gives the totals of the outcomes whose
      rotation is among the last `size` ones. */
  lemma {:induction false} RingSumIsWindowTotal(buckets: seq<Bucket>, log: Log<Bucket>)
    requires Represents(buckets, log)
    ensures SumOf(buckets) == WindowTotal(log, |buckets|)
    decreases |log.entries|
  {
    var size := |buckets|;
    if log.entries == [] {
      forall i | 0 <= i < size ensures buckets[i] == EMPTY {
        var r := RotationOfSlot(i, size, log.rotation);
        assert buckets[r % size] == BucketOf(EMPTY, Plus, log.entries, r);
      }
      SumOfEmpties(buckets);
    } else {
      var n := |log.entries| - 1;
      var e, before := log.entries[n], log.(entries := log.entries[..n]);
      assert e in log.entries;
      if InWindow(log, size, e) {
        var i := e.rotation % size;
        var buckets' := buckets[i := BucketOf(EMPTY, Plus, before.entries, e.rotation)];
        forall r | log.rotation - size < r <= log.rotation
          ensures buckets'[r % size] == BucketOf(EMPTY, Plus, before.entries, r)
        {
          assert buckets[r % size] == BucketOf(EMPTY, Plus, log.entries, r);
          if r < e.rotation {
            RemaindersDiffer(e.rotation, r, size);
          } else if e.rotation < r {
            RemaindersDiffer(r, e.rotation, size);
          }
        }
        RingSumIsWindowTotal(buckets', before);
        assert buckets[i] == BucketOf(EMPTY, Plus, log.entries, e.rotation);
        assert buckets == buckets'[i := Plus(buckets'[i], e.value)];
        SumOfUpdate(buckets', i, e.value);
      } else {
        forall r | log.rotation - size < r <= log.rotation
          ensures buckets[r % size] == BucketOf(EMPTY, Plus, before.entries, r)
        {
          assert buckets[r % size] == BucketOf(EMPTY, Plus, log.entries, r);
        }
        RingSumIsWindowTotal(buckets, before);
      }
    }
  }

  // ---- Decisions -----------------------------------------------------------------

  /** The drop ratio before it is cut off at zero. */
  function RawRatio(k: real, accepts: real, total: real): real
    requires total >= 0.0
  {
    (total - k * accepts) / (total + 1.0)
  }

  function CutOff(ratio: real): real {
    if ratio > 0.0 then ratio else 0.0
  }

  function DropRatio(k: real, sum: Bucket): real
    requires sum.total >= 0
  {
    CutOff(RawRatio(k, sum.accepts as real, sum.total as real))
  }

  predicate Admits(config: Config, sum: Bucket, draw: real)
    requires sum.total >= 0
  {
    sum.total < config.minReqs || DropRatio(config.k, sum) <= 0.0 || draw >= DropRatio(config.k, sum)
  }

  datatype Outcome = Accepted | Rejected

  function Weight(outcome: Outcome): Bucket {
    if outcome.Accepted? then Bucket(1, 1) else Bucket(0, 1)
  }

  /** What callers can do: ask, or report how an admitted request went. */
  datatype Event = Allow(now: int, draw: real) | Report(now: int, outcome: Outcome)

  function OpOf(event: Event): Op<Bucket> {
    match event
    case Allow(now, _) => Read(now)
    case Report(now, outcome) => Add(now, Weight(outcome))
  }

  function OpsOf(events: seq<Event>): (ops: seq<Op<Bucket>>)
    ensures |ops| == |events|
    ensures forall i | 0 <= i < |events| :: ops[i] == OpOf(events[i])
  {
    if events == [] then [] else OpsOf(events[..|events| - 1]) + [OpOf(events[|events| - 1])]
  }

  function LogAfter(config: Config, start: int, events: seq<Event>): Log<Bucket>
    requires Usable(config)
  {
    Run(NewLog(start), config.buckets, BucketTime(config), OpsOf(events))
  }

  /** What a read at `now` adds up to. */
  function SumAt(config: Config, log: Log<Bucket>, now: int): Bucket
    requires Usable(config)
  {
    WindowTotal(Advanced(log, config.buckets, BucketTime(config), now), config.buckets)
  }

  ghost predicate IsOutcome(b: Bucket) {
    b == Weight(Accepted) || b == Weight(Rejected)
  }

  lemma {:induction false} OutcomesAreWeights(config: Config, start: int, events: seq<Event>)
    requires Usable(config)
    ensures forall e | e in LogAfter(config, start, events).entries :: IsOutcome(e.value)
  {
    var ops := OpsOf(events);
    if events != [] {
      OutcomesAreWeights(config, start, events[..|events| - 1]);
      assert ops[..|ops| - 1] == OpsOf(events[..|events| - 1]);
    }
  }

  lemma {:induction false} TotalsAreConsistent(log: Log<Bucket>, size: nat)
    requires forall e | e in log.entries :: IsOutcome(e.value)
    ensures 0 <= WindowTotal(log, size).accepts <= WindowTotal(log, size).total
    decreases |log.entries|
  {
    if log.entries != [] {
      var n := |log.entries| - 1;
      assert log.entries[n] in log.entries;
      TotalsAreConsistent(log.(entries := log.entries[..n]), size);
    }
  }

  lemma {:induction false} ForgottenTotalsAreEmpty(log: Log<Bucket>, size: nat)
    requires forall e | e in log.entries :: !InWindow(log, size, e)
    ensures WindowTotal(log, size) == EMPTY
    decreases |log.entries|
  {
    if log.entries != [] {
      var n := |log.entries| - 1;
      var before := log.(entries := log.entries[..n]);
      assert log.entries[n] in log.entries;
      forall e | e in before.entries ensures !InWindow(before, size, e) {
        assert e in log.entries && InWindow(before, size, e) == InWindow(log, size, e);
      }
      ForgottenTotalsAreEmpty(before, size);
    }
  }

  /** Comparing a quotient with a bound is comparing its numerator. */
  lemma QuotientBounds(x: real, y: real, c: real)
    requires y > 0.0
    ensures x / y < c <==> x < c * y
    ensures x / y > c <==> x > c * y
  {
    assert (x / y) * y == x;
    assert (x / y - c) * y == x - c * y;
  }

  lemma RawRatioBelowOne(k: real, accepts: real, total: real)
    requires k > 0.0 && 0.0 <= accepts <= total
    ensures RawRatio(k, accepts, total) < 1.0
  {
    var ka := k * accepts;
    assert ka >= 0.0;
    QuotientBounds(total - ka, total + 1.0, 1.0);
  }

  /** Never fully shut: in every reachable state the totals are consistent, the drop ratio is
      below one, and so is itself a draw in [0,1) that is admitted. */
  lemma NeverFullyShut(config: Config, start: int, events: seq<Event>, now: int)
    requires Usable(config)
    ensures var sum := SumAt(config, LogAfter(config, start, events), now);
      && 0 <= sum.accepts <= sum.total
      && 0.0 <= DropRatio(config.k, sum) < 1.0
      && Admits(config, sum, DropRatio(config.k, sum))
  {
    OutcomesAreWeights(config, start, events);
    var log := Advanced(LogAfter(config, start, events), config.buckets, BucketTime(config), now);
    TotalsAreConsistent(log, config.buckets);
    var sum := WindowTotal(log, config.buckets);
    RawRatioBelowOne(config.k, sum.accepts as real, sum.total as real);
  }

  // ---- When a request is dropped -----------------------------------------------------

  /** The reported outcomes of a run, in order. */
  function Reports(events: seq<Event>): seq<Outcome> {
    if events == [] then []
    else
      var before, last := Reports(events[..|events| - 1]), events[|events| - 1];
      if last.Report? then before + [last.outcome] else before
  }

  /** The log has one entry for each report, in order. */
  lemma {:induction false} EntriesAreReports(config: Config, start: int, events: seq<Event>)
    requires Usable(config)
    ensures var entries := LogAfter(config, start, events).entries;
      && |entries| == |Reports(events)|
      && forall i | 0 <= i < |entries| :: entries[i].value == Weight(Reports(events)[i])
  {
    if events != [] {
      EntriesAreReports(config, start, events[..|events| - 1]);
      var ops := OpsOf(events);
      assert ops[..|ops| - 1] == OpsOf(events[..|events| - 1]);
    }
  }

  /** How many of the reports were made after rotation `r`. */
  function TotalAfter(entries: seq<Entry<Bucket>>, r: int): nat {
    if entries == [] then 0
    else TotalAfter(entries[..|entries| - 1], r) + if entries[|entries| - 1].rotation > r then 1 else 0
  }

  /** How many of those were successes. */
  function AcceptsAfter(entries: seq<Entry<Bucket>>, reports: seq<Outcome>, r: int): nat
    requires |entries| == |reports|
  {
    if entries == [] then 0
    else
      var n := |entries| - 1;
      AcceptsAfter(entries[..n], reports[..n], r) + if entries[n].rotation > r && reports[n].Accepted? then 1 else 0
  }

  lemma {:induction false} WindowTotalCounts(log: Log<Bucket>, reports: seq<Outcome>, size: nat)
    requires |log.entries| == |reports| && forall i | 0 <= i < |reports| :: log.entries[i].value == Weight(reports[i])
    ensures WindowTotal(log, size)
      == Bucket(AcceptsAfter(log.entries, reports, log.rotation - size), TotalAfter(log.entries, log.rotation - size))
    decreases |reports|
  {
    if reports != [] {
      var n := |reports| - 1;
      WindowTotalCounts(log.(entries := log.entries[..n]), reports[..n], size);
    }
  }

  lemma RatioAboveIff(k: real, accepts: real, total: real, draw: real)
    requires total >= 0.0 && draw >= 0.0
    ensures draw < CutOff(RawRatio(k, accepts, total)) <==> draw * (total + 1.0) < total - k * accepts
  {
    QuotientBounds(total - k * accepts, total + 1.0, draw);
  }

  /** The rule, as arithmetic over the number of reports and of successes among them. */
  predicate MustDrop(config: Config, accepts: nat, total: nat, draw: real) {
    total >= config.minReqs && draw * (total as real + 1.0) < total as real - config.k * accepts as real
  }

  lemma DeniedByTotals(config: Config, accepts: nat, total: nat, draw: real)
    requires Usable(config) && draw >= 0.0
    ensures !Admits(config, Bucket(accepts, total), draw) <==> MustDrop(config, accepts, total, draw)
  {
    RatioAboveIff(config.k, accepts as real, total as real, draw);
  }

  /** In every run a request is dropped exactly when the reports made during the last `buckets` rotations
      are at least `minReqs`, and draw * (total + 1) < total - K * accepts over those reports. */
  lemma DroppedIff(config: Config, start: int, events: seq<Event>, now: int, draw: real)
    requires Usable(config) && draw >= 0.0
    ensures |LogAfter(config, start, events).entries| == |Reports(events)|
    ensures SumAt(config, LogAfter(config, start, events), now).total >= 0
    ensures var log := Advanced(LogAfter(config, start, events), config.buckets, BucketTime(config), now);
      var oldest := log.rotation - config.buckets;
      (!Admits(config, SumAt(config, LogAfter(config, start, events), now), draw))
      <==> MustDrop(config, AcceptsAfter(log.entries, Reports(events), oldest), TotalAfter(log.entries, oldest), draw)
  {
    EntriesAreReports(config, start, events);
    var log := Advanced(LogAfter(config, start, events), config.buckets, BucketTime(config), now);
    var oldest := log.rotation - config.buckets;
    WindowTotalCounts(log, Reports(events), config.buckets);
    DeniedByTotals(config, AcceptsAfter(log.entries, Reports(events), oldest), TotalAfter(log.entries, oldest), draw);
  }

  // ---- Recovery ------------------------------------------------------------------------

  /** Every report so far is at least (2*Buckets-1)*BucketTime old at `now`. */
  ghost predicate Quiet(config: Config, events: seq<Event>, now: int) {
    forall i | 0 <= i < |events| && events[i].Report? ::
      now - events[i].now >= (2 * config.buckets - 1) * (config.bucketTimeMs * 1_000_000)
  }

  lemma QuietEntriesAreOld(config: Config, start: int, events: seq<Event>, now: int)
    requires Usable(config) && Quiet(config, events, now)
    ensures forall e | e in LogAfter(config, start, events).entries ::
      now - e.time >= (2 * config.buckets - 1) * BucketTime(config)
  {
    LogTimesAreReportTimes(config, start, events);
  }

  lemma QuietEmptiesTheWindow(config: Config, start: int, events: seq<Event>, now: int)
    requires Usable(config) && Quiet(config, events, now)
    requires Ordered(start, OpsOf(events)) && Clock(start, OpsOf(events)) <= now
    ensures SumAt(config, LogAfter(config, start, events), now) == EMPTY
  {
    var ops, size, bucketTime := OpsOf(events), config.buckets, BucketTime(config);
    var later := Advanced(LogAfter(config, start, events), size, bucketTime, now);
    assert forall e | e in later.entries :: !InWindow(later, size, e) by {
      QuietEntriesAreOld(config, start, events, now);
      WindowEmpties(start, size, bucketTime, ops, now);
    }
    ForgottenTotalsAreEmpty(later, size);
  }

  /** Recovery: for every configuration, whatever was reported and asked before, once every report
      is at least (2*Buckets-1)*BucketTime old each request is admitted for every draw. */
  lemma Recovery(raw: Config, start: int, events: seq<Event>, now: int, draw: real)
    requires Quiet(Normalized(raw), events, now)
    requires Ordered(start, OpsOf(events)) && Clock(start, OpsOf(events)) <= now
    ensures Usable(Normalized(raw))
    ensures var sum := SumAt(Normalized(raw), LogAfter(Normalized(raw), start, events), now);
      sum.total >= 0 && Admits(Normalized(raw), sum, draw)
  {
    QuietEmptiesTheWindow(Normalized(raw), start, events, now);
  }

  lemma {:induction false} LogTimesAreReportTimes(config: Config, start: int, events: seq<Event>)
    requires Usable(config)
    ensures forall e | e in LogAfter(config, start, events).entries ::
      exists i :: 0 <= i < |events| && events[i].Report? && events[i].now == e.time
  {
    if events != [] {
      var before, ops := events[..|events| - 1], OpsOf(events);
      LogTimesAreReportTimes(config, start, before);
      assert ops[..|ops| - 1] == OpsOf(before);
      var last := events[|events| - 1];
      forall e | e in LogAfter(config, start, events).entries
        ensures exists i :: 0 <= i < |events| && events[i].Report? && events[i].now == e.time
      {
        if e in LogAfter(config, start, before).entries {
          var i :| 0 <= i < |before| && before[i].Report? && before[i].now == e.time;
          assert events[i] == before[i];
        } else {
          assert last.Report? && last.now == e.time;
        }
      }
    }
  }

  // ---- How one report moves the ratio ----------------------------------------------

  lemma FailureChange(k: real, accepts: real, total: real)
    requires k > 0.0 && 0.0 <= accepts <= total
    ensures RawRatio(k, accepts, total + 1.0) >= RawRatio(k, accepts, total)
  {
    var ka, before := k * accepts, RawRatio(k, accepts, total);
    assert ka >= 0.0;
    assert before * (total + 1.0) == total - ka;
    RawRatioBelowOne(k, accepts, total);
    assert before * (total + 2.0) == total - ka + before;
    QuotientBounds(total + 1.0 - ka, total + 2.0, before);
  }

  lemma SuccessChange(k: real, accepts: real, total: real)
    requires k > 0.0 && 0.0 <= accepts <= total
    ensures RawRatio(k, accepts + 1.0, total + 1.0) > RawRatio(k, accepts, total)
      <==> k * (total + 1.0 - accepts) < 1.0
    ensures RawRatio(k, accepts + 1.0, total + 1.0) > 0.0 <==> total + 1.0 > k * (accepts + 1.0)
  {
    var ka, before, d := k * accepts, RawRatio(k, accepts, total), total + 1.0;
    var top := d - k * (accepts + 1.0);
    assert top == d - ka - k;
    QuotientBounds(top, total + 2.0, 0.0);
    QuotientBounds(top, total + 2.0, before);
    // top > before * (total+2)  <==>  1 - k > before  <==>  (1-k) * d > total - ka
    assert before * d == total - ka;
    assert before * (total + 2.0) == total - ka + before;
    QuotientBounds(total - ka, d, 1.0 - k);
    assert (1.0 - k) * d == d - k * d;
    assert k * (d - accepts) == k * d - ka;
  }

  lemma FailureNeverLowersTheRatio(k: real, sum: Bucket)
    requires k > 0.0 && 0 <= sum.accepts <= sum.total
    ensures DropRatio(k, Plus(sum, Weight(Rejected))) >= DropRatio(k, sum)
  {
    FailureChange(k, sum.accepts as real, sum.total as real);
    assert (sum.total + 1) as real == sum.total as real + 1.0;
  }

  /** When a success pushes the ratio up: the K-fold of the requests not accepted, this one included,
      is still below one, and the new total exceeds K times the new accepts. */
  predicate SuccessRaises(k: real, accepts: real, total: real) {
    k * (total + 1.0 - accepts) < 1.0 && total + 1.0 > k * (accepts + 1.0)
  }

  lemma SuccessChangesCutOff(k: real, accepts: real, total: real)
    requires k > 0.0 && 0.0 <= accepts <= total
    ensures CutOff(RawRatio(k, accepts + 1.0, total + 1.0)) > CutOff(RawRatio(k, accepts, total))
      <==> SuccessRaises(k, accepts, total)
  {
    SuccessChange(k, accepts, total);
  }

  lemma NeverRaisesFromOne(k: real, accepts: real, total: real)
    requires k >= 1.0 && accepts <= total
    ensures !SuccessRaises(k, accepts, total)
  {
    var rejected := total + 1.0 - accepts;
    assert (k - 1.0) * rejected >= 0.0;
    assert k * rejected >= rejected;
  }

  /** A success raises the ratio exactly when `SuccessRaises` says so; never when K >= 1. */
  lemma SuccessRaisesTheRatioIff(k: real, sum: Bucket)
    requires k > 0.0 && 0 <= sum.accepts <= sum.total
    ensures DropRatio(k, Plus(sum, Weight(Accepted))) > DropRatio(k, sum)
      <==> SuccessRaises(k, sum.accepts as real, sum.total as real)
    ensures k >= 1.0 ==> DropRatio(k, Plus(sum, Weight(Accepted))) <= DropRatio(k, sum)
  {
    var accepts, total := sum.accepts as real, sum.total as real;
    assert (sum.total + 1) as real == total + 1.0 && (sum.accepts + 1) as real == accepts + 1.0;
    SuccessChangesCutOff(k, accepts, total);
    if k >= 1.0 {
      NeverRaisesFromOne(k, accepts, total);
    }
  }

  /** The same, stated of a report that falls into the current rotation. */
  lemma ReportWithinOneRotation(config: Config, start: int, events: seq<Event>, now: int, outcome: Outcome)
    requires Usable(config)
    requires Elapsed(LogAfter(config, start, events).lastTime, now, BucketTime(config)) <= 0
    ensures var before := SumAt(config, LogAfter(config, start, events), now);
      var after := SumAt(config, LogAfter(config, start, events + [Report(now, outcome)]), now);
      && after == Plus(before, Weight(outcome))
      && before.total >= 0 && after.total >= 0
      && (outcome.Rejected? ==> DropRatio(config.k, after) >= DropRatio(config.k, before))
      && (outcome.Accepted? && config.k >= 1.0 ==> DropRatio(config.k, after) <= DropRatio(config.k, before))
  {
    var log := LogAfter(config, start, events);
    var more := events + [Report(now, outcome)];
    assert more[..|more| - 1] == events;
    var ops := OpsOf(more);
    assert ops[..|ops| - 1] == OpsOf(events);
    var log' := LogAfter(config, start, more);
    assert log' == log.(entries := log.entries + [Entry(log.rotation, now, Weight(outcome))]);
    assert log'.entries[..|log'.entries| - 1] == log.entries;
    assert log'.(entries := log.entries) == log;
    NeverFullyShut(config, start, events, now);
    FailureNeverLowersTheRatio(config.k, SumAt(config, log, now));
    SuccessRaisesTheRatioIff(config.k, SumAt(config, log, now));
  }

  // ---- The breaker object --------------------------------------------------------------

  class GoogleBreaker {
    const config: Config
    const window: Ring<Bucket>

    ghost predicate Valid()
      reads this, window, window.buckets
    {
      && Usable(config)
      && window.Valid()
      && window.size == config.buckets && window.bucketTime == BucketTime(config)
      && window.zero == EMPTY && window.plus == Plus
      && forall e | e in window.log.entries :: IsOutcome(e.value)
    }

    constructor (raw: Config, now: int)
      ensures Valid() && fresh(window) && fresh(window.buckets)
      ensures config == Normalized(raw)
      ensures window.log == NewLog(now)
    {
      var normalized := Normalized(raw);
      config := normalized;
      window := new Ring<Bucket>(normalized.buckets, BucketTime(normalized), EMPTY, Plus, now);
    }

    method Sum(now: int) returns (sum: Bucket)
      requires Valid()
      modifies window`offset, window`lastTime, window`log, window.buckets
      ensures Valid()
      ensures window.log == Advanced(old(window.log), config.buckets, BucketTime(config), now)
      ensures sum == SumAt(config, old(window.log), now)
    {
      window.Advance(now);
      sum := EMPTY;
      for i := 0 to window.buckets.Length
        invariant sum == SumOf(window.buckets[..i])
      {
        sum := Plus(sum, window.buckets[i]);
        assert window.buckets[..i + 1][..i] == window.buckets[..i];
      }
      assert window.buckets[..window.buckets.Length] == window.buckets[..];
      RingSumIsWindowTotal(window.buckets[..], window.log);
    }

    /** Decides one request; `draw` is the random number in [0,1). */
    method Allow(now: int, draw: real) returns (admitted: bool)
      requires Valid()
      modifies window`offset, window`lastTime, window`log, window.buckets
      ensures Valid()
      ensures window.log == Advanced(old(window.log), config.buckets, BucketTime(config), now)
      ensures SumAt(config, old(window.log), now).total >= 0
      ensures admitted == Admits(config, SumAt(config, old(window.log), now), draw)
    {
      var sum := Sum(now);
      TotalsAreConsistent(window.log, config.buckets);
      if sum.total < config.minReqs {
        return true;
      }
      var ratio := DropRatio(config.k, sum);
      if ratio <= 0.0 {
        return true;
      }
      admitted := !(draw < ratio);
    }

    method Mark(now: int, outcome: Outcome)
      requires Valid()
      modifies window`offset, window`lastTime, window`log, window.buckets
      ensures Valid()
      ensures window.log == Recorded(old(window.log), config.buckets, BucketTime(config), now, Weight(outcome))
    {
      window.Record(now, Weight(outcome));
    }

    /** Runs one request: `failed` and `acceptable` are what the request and the caller's test answer,
        `done` is when it finishes. An error the caller deems acceptable counts as a success. */
    method DoWithAcceptable(now: int, draw: real, done: int, failed: bool, acceptable: bool)
        returns (admitted: bool)
      requires Valid()
      modifies window`offset, window`lastTime, window`log, window.buckets
      ensures Valid()
      ensures SumAt(config, old(window.log), now).total >= 0
      ensures admitted == Admits(config, SumAt(config, old(window.log), now), draw)
      ensures var asked := Advanced(old(window.log), config.buckets, BucketTime(config), now);
        window.log ==
          if !admitted then asked
          else Recorded(asked, config.buckets, BucketTime(config), done,
                        Weight(if failed && !acceptable then Rejected else Accepted))
    {
      admitted := Allow(now, draw);
      if admitted {
        if !failed || acceptable {
          Mark(done, Accepted);
        } else {
          Mark(done, Rejected);
        }
      }
    }
  }
}
