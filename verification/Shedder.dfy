/** The adaptive load shedder: while the system is overloaded, or was within the last second, a request
    is dropped when more requests are in flight than the rolling counters say the service can take. */
module Shedder {
  import opened Arithmetic
  import opened RollingRing

  // ---- The rolling counters ----------------------------------------------------------------

  function Plus(a: real, b: real): real {
    a + b
  }

  /** Totals per slot, each over the values recorded during the rotation the slot stands for. */
  function SlotSums(log: Log<real>, size: nat): seq<real> {
    seq(size, i requires 0 <= i < size =>
      BucketOf(0.0, Plus, log.entries, RotationOfSlot(i, size, log.rotation)))
  }

  function MaxOf(s: seq<real>): (m: real)
    ensures m >= 0.0
    ensures forall i | 0 <= i < |s| :: s[i] <= m
    ensures m == 0.0 || m in s
  {
    if s == [] then 0.0
    else
      var before, last := MaxOf(s[..|s| - 1]), s[|s| - 1];
      if last > before then last else before
  }

  function PositiveSum(s: seq<real>): (r: real)
    ensures r >= 0.0
  {
    if s == [] then 0.0
    else PositiveSum(s[..|s| - 1]) + if s[|s| - 1] > 0.0 then s[|s| - 1] else 0.0
  }

  function PositiveCount(s: seq<real>): nat {
    if s == [] then 0 else PositiveCount(s[..|s| - 1]) + if s[|s| - 1] > 0.0 then 1 else 0
  }

  function PositiveMean(s: seq<real>): (r: real)
    ensures r >= 0.0
  {
    if PositiveCount(s) == 0 then 0.0 else PositiveSum(s) / PositiveCount(s) as real
  }

  /** Little's law: the best bucket's throughput times the average response time, at least 1 ms. */
  function MaxFlight(pass: Log<real>, rt: Log<real>, size: nat): (r: real)
    ensures r >= 0.0
  {
    var minRt := if PositiveMean(SlotSums(rt, size)) > 1.0 then PositiveMean(SlotSums(rt, size)) else 1.0;
    Scaled(MaxOf(SlotSums(pass, size)), minRt, size)
  }

  function Scaled(maxPass: real, minRt: real, size: nat): (r: real)
    requires maxPass >= 0.0 && minRt >= 0.0
    ensures r >= 0.0
  {
    assert maxPass * minRt >= 0.0;
    var perSecond := maxPass * minRt / 1000.0;
    assert perSecond * size as real >= 0.0;
    perSecond * size as real
  }

  lemma {:induction false} MeanOfEqualSums(s: seq<real>, r: real)
    requires r > 0.0 && forall i | 0 <= i < |s| :: s[i] <= 0.0 || s[i] == r
    ensures PositiveSum(s) == Product(r, PositiveCount(s))
    decreases |s|
  {
    if s != [] {
      MeanOfEqualSums(s[..|s| - 1], r);
    }
  }

  function Product(r: real, n: nat): real {
    r * n as real
  }

  lemma {:induction false} SomePositive(s: seq<real>, i: nat)
    requires i < |s| && s[i] > 0.0
    ensures PositiveCount(s) > 0
    decreases |s|
  {
    if i < |s| - 1 {
      SomePositive(s[..|s| - 1], i);
    }
  }

  lemma QuotientOfProduct(r: real, n: nat)
    requires n > 0
    ensures Product(r, n) / n as real == r
  {
  }

  /** Under a steady load - the best rotation has `p` passes, every rotation in use the same total
      response time `r` of at least 1 ms - the limit is p * r / 1000 * size. */
  lemma SteadyLoadLimit(pass: Log<real>, rt: Log<real>, size: nat, i: nat, j: nat)
    requires i < size && j < size
    requires var p := SlotSums(pass, size);
      p[i] >= 0.0 && forall k | 0 <= k < size :: p[k] <= p[i]
    requires var r := SlotSums(rt, size);
      r[j] >= 1.0 && forall k | 0 <= k < size :: r[k] <= 0.0 || r[k] == r[j]
    ensures 1000.0 * MaxFlight(pass, rt, size) == Times(SlotSums(pass, size)[i], SlotSums(rt, size)[j], size as real)
  {
    var p, r := SlotSums(pass, size), SlotSums(rt, size);
    assert MaxOf(p) == p[i];
    MeanOfEqualSums(r, r[j]);
    SomePositive(r, j);
    QuotientOfProduct(r[j], PositiveCount(r));
    ScaledValue(p[i], r[j], size);
  }

  /** Without a pass in the window nothing may be in flight; with one, something may. */
  lemma NoRoomIff(pass: Log<real>, rt: Log<real>, size: nat)
    ensures MaxFlight(pass, rt, size) == 0.0
      <==> forall k | 0 <= k < size :: SlotSums(pass, size)[k] <= 0.0
  {
    var m := MaxOf(SlotSums(pass, size));
    var mean := PositiveMean(SlotSums(rt, size));
    if size > 0 && m > 0.0 {
      ScaledPositive(m, if mean > 1.0 then mean else 1.0, size);
      var k :| 0 <= k < size && SlotSums(pass, size)[k] == m;
    }
  }

  lemma ScaledPositive(maxPass: real, minRt: real, size: nat)
    requires maxPass > 0.0 && minRt >= 1.0 && size > 0
    ensures Scaled(maxPass, minRt, size) > 0.0
  {
    assert maxPass * minRt > 0.0;
    var perSecond := maxPass * minRt / 1000.0;
    assert perSecond > 0.0;
    assert perSecond * size as real > 0.0;
  }

  // ---- The limit, over the log ------------------------------------------------------------------

  /** What was recorded during rotation `r`, added up. */
  function RotationTotal(entries: seq<Entry<real>>, r: int): real {
    if entries == [] then 0.0
    else
      RotationTotal(entries[..|entries| - 1], r)
        + if entries[|entries| - 1].rotation == r then entries[|entries| - 1].value else 0.0
  }

  /** The totals of rotations from+1, ..., from+n. */
  function Totals(entries: seq<Entry<real>>, from: int, n: nat): seq<real> {
    seq(n, k requires 0 <= k < n => RotationTotal(entries, from + 1 + k))
  }

  /** The positive ones among them, added up. */
  function PositiveTotal(entries: seq<Entry<real>>, from: int, n: nat): real {
    if n == 0 then 0.0
    else
      var last := RotationTotal(entries, from + n);
      PositiveTotal(entries, from, n - 1) + if last > 0.0 then last else 0.0
  }

  /** How many of them are positive. */
  function PositiveRotations(entries: seq<Entry<real>>, from: int, n: nat): nat {
    if n == 0 then 0
    else PositiveRotations(entries, from, n - 1) + if RotationTotal(entries, from + n) > 0.0 then 1 else 0
  }

  /** `p` is the largest total of a rotation in the window, or zero if none is positive. */
  ghost predicate IsPeak(log: Log<real>, size: nat, p: real) {
    IsLargest(Totals(log.entries, log.rotation - size, size), p)
  }

  ghost predicate IsLargest(totals: seq<real>, p: real) {
    && (forall k | 0 <= k < |totals| :: totals[k] <= p)
    && p >= 0.0 && (p == 0.0 || p in totals)
  }

  lemma {:induction false} BucketIsTotal(entries: seq<Entry<real>>, r: int)
    ensures BucketOf(0.0, Plus, entries, r) == RotationTotal(entries, r)
  {
    if entries != [] {
      BucketIsTotal(entries[..|entries| - 1], r);
    }
  }

  lemma SlotOfRotation(i: nat, size: nat, rotation: int, r: int)
    requires i < size && rotation - size < r <= rotation && r % size == i
    ensures RotationOfSlot(i, size, rotation) == r
  {
    var r' := RotationOfSlot(i, size, rotation);
    if r' < r {
      RemaindersDiffer(r, r', size);
    } else if r < r' {
      RemaindersDiffer(r', r, size);
    }
  }

  /** The rotation slot `i` stands for, counted from the oldest in the window. */
  lemma SlotPosition(i: nat, size: nat, rotation: int)
    requires i < size
    ensures var s := rotation % size;
      RotationOfSlot(i, size, rotation) == if i <= s then rotation - s + i else rotation - s - size + i
  {
    var q, s := rotation / size, rotation % size;
    var r := if i <= s then rotation - s + i else rotation - s - size + i;
    MulAdd(q, -1, size);
    DivUnique(r, if i <= s then q else q - 1, i, size);
    SlotOfRotation(i, size, rotation, r);
  }

  /** The slots hold the totals of the window, from some point on and then from the start. */
  lemma SlotsAreTotals(log: Log<real>, size: nat)
    requires size > 0
    ensures var totals := Totals(log.entries, log.rotation - size, size);
      var cut := size - 1 - log.rotation % size;
      0 <= cut < size && SlotSums(log, size) == totals[cut..] + totals[..cut]
  {
    var totals, cut := Totals(log.entries, log.rotation - size, size), size - 1 - log.rotation % size;
    forall i | 0 <= i < size ensures SlotSums(log, size)[i] == (totals[cut..] + totals[..cut])[i] {
      SlotPosition(i, size, log.rotation);
      BucketIsTotal(log.entries, RotationOfSlot(i, size, log.rotation));
    }
  }

  lemma {:induction false} PositivesAppend(a: seq<real>, b: seq<real>)
    ensures PositiveSum(a + b) == PositiveSum(a) + PositiveSum(b)
    ensures PositiveCount(a + b) == PositiveCount(a) + PositiveCount(b)
    decreases |b|
  {
    if b == [] {
      assert a + b == a;
    } else {
      assert (a + b)[..|a + b| - 1] == a + b[..|b| - 1];
      PositivesAppend(a, b[..|b| - 1]);
    }
  }

  lemma {:induction false} PositivesOfTotals(entries: seq<Entry<real>>, from: int, n: nat)
    ensures PositiveSum(Totals(entries, from, n)) == PositiveTotal(entries, from, n)
    ensures PositiveCount(Totals(entries, from, n)) == PositiveRotations(entries, from, n)
  {
    if n > 0 {
      PositivesOfTotals(entries, from, n - 1);
      assert Totals(entries, from, n)[..n - 1] == Totals(entries, from, n - 1);
    }
  }

  lemma MeanOverLog(log: Log<real>, size: nat)
    requires size > 0
    ensures var sums, from := SlotSums(log, size), log.rotation - size;
      && PositiveSum(sums) == PositiveTotal(log.entries, from, size)
      && PositiveCount(sums) == PositiveRotations(log.entries, from, size)
  {
    SlotsAreTotals(log, size);
    var totals, cut := Totals(log.entries, log.rotation - size, size), size - 1 - log.rotation % size;
    PositivesAppend(totals[cut..], totals[..cut]);
    PositivesAppend(totals[..cut], totals[cut..]);
    assert totals[..cut] + totals[cut..] == totals;
    PositivesOfTotals(log.entries, log.rotation - size, size);
  }

  lemma PeakOverLog(log: Log<real>, size: nat, p: real)
    requires size > 0 && IsPeak(log, size, p)
    ensures MaxOf(SlotSums(log, size)) == p
  {
    SlotsAreTotals(log, size);
    var totals, cut := Totals(log.entries, log.rotation - size, size), size - 1 - log.rotation % size;
    var sums := SlotSums(log, size);
    assert totals == totals[..cut] + totals[cut..];
    assert forall x :: x in totals <==> x in sums;
  }

  function Times(a: real, b: real, c: real): real {
    a * b * c
  }

  lemma ScaledValue(maxPass: real, minRt: real, size: nat)
    requires maxPass >= 0.0 && minRt >= 0.0
    ensures 1000.0 * Scaled(maxPass, minRt, size) == Times(maxPass, minRt, size as real)
  {
    var product := maxPass * minRt;
    assert 1000.0 * (product / 1000.0) == product;
    assert 1000.0 * (product / 1000.0 * size as real) == product * size as real;
  }

  lemma TimesMean(p: real, mean: real, sum: real, count: real, size: real)
    requires mean * count == sum
    ensures Times(p, mean, size) * count == Times(p, sum, size)
  {
    assert p * mean * size * count == p * size * (mean * count);
  }

  lemma MeanTimesCount(sum: real, count: nat)
    requires count > 0
    ensures sum / count as real * count as real == sum
    ensures sum / count as real >= 1.0 <==> sum >= count as real
  {
    var c, mean := count as real, sum / count as real;
    assert mean * c == sum;
    assert (mean - 1.0) * c == sum - c;
  }

  /** Little's law: `p` passes in the best rotation and response times of `c` rotations adding up to `sum`.
      A mean below 1 ms counts as 1 ms. */
  predicate LittlesLaw(limit: real, p: real, sum: real, c: nat, size: nat) {
    if c > 0 && sum >= c as real then 1000.0 * limit * c as real == p * sum * size as real
    else 1000.0 * limit == p * size as real
  }

  lemma ScaledIsLittlesLaw(p: real, sum: real, c: nat, size: nat, minRt: real)
    requires p >= 0.0 && sum >= 0.0
    requires var mean := if c == 0 then 0.0 else sum / c as real; minRt == if mean > 1.0 then mean else 1.0
    ensures LittlesLaw(Scaled(p, minRt, size), p, sum, c, size)
  {
    ScaledValue(p, minRt, size);
    if c > 0 {
      MeanTimesCount(sum, c);
      if sum >= c as real {
        TimesMean(p, minRt, sum, c as real, size as real);
      }
    }
  }

  /** The limit obeys Little's law over the log: with p the largest number of passes in one rotation of
      the window, and the response times of the rotations that have any. */
  lemma LimitOverLog(pass: Log<real>, rt: Log<real>, size: nat, p: real)
    requires size > 0 && IsPeak(pass, size, p)
    ensures LittlesLaw(MaxFlight(pass, rt, size), p, PositiveTotal(rt.entries, rt.rotation - size, size),
                       PositiveRotations(rt.entries, rt.rotation - size, size), size)
  {
    MeanOverLog(rt, size);
    PeakOverLog(pass, size, p);
    var sums := SlotSums(rt, size);
    var mean := PositiveMean(sums);
    ScaledIsLittlesLaw(p, PositiveSum(sums), PositiveCount(sums), size, if mean > 1.0 then mean else 1.0);
  }

  class RollingCounter {
    const ring: Ring<real>

    ghost predicate Valid()
      reads ring, ring.buckets
    {
      ring.Valid() && ring.zero == 0.0 && ring.plus == Plus
    }

    constructor (size: nat, interval: int, now: int)
      requires 0 < size && 0 < interval
      ensures Valid() && fresh(ring) && fresh(ring.buckets)
      ensures ring.size == size && ring.bucketTime == interval && ring.log == NewLog(now)
    {
      ring := new Ring<real>(size, interval, 0.0, Plus, now);
    }

    lemma BucketsAreSlotSums()
      requires Valid()
      ensures ring.buckets[..] == SlotSums(ring.log, ring.size)
    {
      forall i | 0 <= i < ring.size ensures ring.buckets[i] == SlotSums(ring.log, ring.size)[i] {
        var r := RotationOfSlot(i, ring.size, ring.log.rotation);
        assert ring.buckets[r % ring.size] == BucketOf(0.0, Plus, ring.log.entries, r);
      }
    }

    method Add(now: int, val: real)
      requires Valid()
      modifies ring`offset, ring`lastTime, ring`log, ring.buckets
      ensures Valid() && ring.log == Recorded(old(ring.log), ring.size, ring.bucketTime, now, val)
    {
      ring.Record(now, val);
    }

    /** Mean of the buckets that hold something; rotates the ring first. */
    method Avg(now: int) returns (avg: real)
      requires Valid()
      modifies ring`offset, ring`lastTime, ring`log, ring.buckets
      ensures Valid() && ring.log == Advanced(old(ring.log), ring.size, ring.bucketTime, now)
      ensures avg == PositiveMean(SlotSums(ring.log, ring.size))
    {
      ring.Advance(now);
      var b := ring.buckets;
      var sum, count := 0.0, 0;
      for i := 0 to b.Length
        invariant sum == PositiveSum(b[..i]) && count == PositiveCount(b[..i])
      {
        assert b[..i + 1][..i] == b[..i];
        if b[i] > 0.0 {
          sum := sum + b[i];
          count := count + 1;
        }
      }
      assert b[..b.Length] == b[..];
      BucketsAreSlotSums();
      if count == 0 {
        return 0.0;
      }
      return sum / count as real;
    }

    /** Largest bucket; rotates the ring first. */
    method Max(now: int) returns (max: real)
      requires Valid()
      modifies ring`offset, ring`lastTime, ring`log, ring.buckets
      ensures Valid() && ring.log == Advanced(old(ring.log), ring.size, ring.bucketTime, now)
      ensures max == MaxOf(SlotSums(ring.log, ring.size))
    {
      ring.Advance(now);
      var b := ring.buckets;
      max := 0.0;
      for i := 0 to b.Length
        invariant max == MaxOf(b[..i])
      {
        assert b[..i + 1][..i] == b[..i];
        if b[i] > max {
          max := b[i];
        }
      }
      assert b[..b.Length] == b[..];
      BucketsAreSlotSums();
    }
  }

  // ---- The shedder object ----------------------------------------------------------------------

  const SECOND := 1_000_000_000

  /** The clock readings inside one call: for the cool-off, for each counter, and for noting a drop. */
  datatype Readings = Readings(check: int, pass: int, rt: int, drop: int)

  class AdaptiveShedder {
    const cpuThreshold: int
    const bucketNum: nat
    const passCounter: RollingCounter
    const rtCounter: RollingCounter
    var flying: int
    var dropTime: int
    var droppedRecently: bool

    ghost predicate Valid()
      reads this, passCounter.ring, passCounter.ring.buckets, rtCounter.ring, rtCounter.ring.buckets
    {
      && passCounter.Valid() && rtCounter.Valid()
      && passCounter.ring != rtCounter.ring && passCounter.ring.buckets != rtCounter.ring.buckets
      && passCounter.ring.size == rtCounter.ring.size == bucketNum
    }

    constructor (cpuThreshold: int, windowSize: int, bucketNum: nat, now: int)
      requires 0 < bucketNum && 0 < windowSize / bucketNum
      ensures Valid() && flying == 0 && !droppedRecently
      ensures this.cpuThreshold == cpuThreshold && this.bucketNum == bucketNum
      ensures passCounter.ring.bucketTime == rtCounter.ring.bucketTime == windowSize / bucketNum
      ensures passCounter.ring.log == rtCounter.ring.log == NewLog(now)
      ensures fresh(passCounter.ring) && fresh(passCounter.ring.buckets)
      ensures fresh(rtCounter.ring) && fresh(rtCounter.ring.buckets)
    {
      this.cpuThreshold, this.bucketNum := cpuThreshold, bucketNum;
      var pass := new RollingCounter(bucketNum, windowSize / bucketNum, now);
      var rt := new RollingCounter(bucketNum, windowSize / bucketNum, now);
      passCounter, rtCounter := pass, rt;
      flying, dropTime, droppedRecently := 0, 0, false;
    }

    /** Overloaded by CPU, or cooling off: within one second of the last drop. */
    method SystemOverloaded(now: int, cpu: int) returns (overloaded: bool)
      modifies this`droppedRecently
      ensures overloaded <==>
        old((cpuThreshold > 0 && cpu >= cpuThreshold) || (droppedRecently && now - dropTime < 1_000_000_000))
      ensures droppedRecently <==> old(droppedRecently) && overloaded
    {
      if cpuThreshold > 0 {
        if cpu >= cpuThreshold {
          return true;
        }
      }
      if droppedRecently {
        if now - dropTime < SECOND {
          return true;
        }
        droppedRecently := false;
      }
      return false;
    }

    /** The verdict of the CPU reading and of the cool-off together. */
    predicate Overloaded(now: int, cpu: int)
      reads this
    {
      (cpuThreshold > 0 && cpu >= cpuThreshold) || (droppedRecently && now - dropTime < SECOND)
    }

    /** Decides one request. With nothing in flight it is always admitted, whatever the CPU and the
        cool-off say. */
    method Allow(at: Readings, cpu: int) returns (admitted: bool)
      requires Valid()
      modifies this`flying, this`dropTime, this`droppedRecently
      modifies passCounter.ring`offset, passCounter.ring`lastTime, passCounter.ring`log, passCounter.ring.buckets
      modifies rtCounter.ring`offset, rtCounter.ring`lastTime, rtCounter.ring`log, rtCounter.ring.buckets
      ensures Valid()
      ensures old(flying) <= 0 ==> admitted
      ensures admitted <==>
        (old((cpuThreshold > 0 && cpu >= cpuThreshold) ||
             (droppedRecently && at.check - dropTime < 1_000_000_000)) ==>
           old(flying) as real <= MaxFlight(passCounter.ring.log, rtCounter.ring.log, bucketNum))
      ensures flying == old(flying) + if admitted then 1 else 0
      ensures !admitted ==> dropTime == at.drop && droppedRecently
      ensures admitted ==>
        dropTime == old(dropTime) && (droppedRecently <==> old(droppedRecently && Overloaded(at.check, cpu)))
      ensures var ring := passCounter.ring;
        ring.log == if old(Overloaded(at.check, cpu)) then Advanced(old(ring.log), ring.size, ring.bucketTime, at.pass)
                    else old(ring.log)
      ensures var ring := rtCounter.ring;
        ring.log == if old(Overloaded(at.check, cpu)) then Advanced(old(ring.log), ring.size, ring.bucketTime, at.rt)
                    else old(ring.log)
    {
      var overloaded := SystemOverloaded(at.check, cpu);
      var drop := false;
      if overloaded {
        var maxPass := passCounter.Max(at.pass);
        var avg := rtCounter.Avg(at.rt);
        var minRt := if avg > 1.0 then avg else 1.0;
        drop := flying as real > Scaled(maxPass, minRt, bucketNum);
      }
      if drop {
        dropTime := at.drop;
        droppedRecently := true;
        return false;
      }
      flying := flying + 1;
      return true;
    }

    /** A promise given at `start` and resolved as a success at `end`; the counters read the clock again. */
    method Pass(start: int, end: int, at: Readings)
      requires Valid() && start <= end
      modifies this`flying
      modifies passCounter.ring`offset, passCounter.ring`lastTime, passCounter.ring`log, passCounter.ring.buckets
      modifies rtCounter.ring`offset, rtCounter.ring`lastTime, rtCounter.ring`log, rtCounter.ring.buckets
      ensures Valid() && flying == old(flying) - 1
      ensures var ring := passCounter.ring;
        ring.log == Recorded(old(ring.log), ring.size, ring.bucketTime, at.pass, 1.0)
      ensures var ring := rtCounter.ring;
        ring.log == Recorded(old(ring.log), ring.size, ring.bucketTime, at.rt, ((end - start) / 1_000_000) as real)
    {
      var rt := ((end - start) / 1_000_000) as real;
      flying := flying - 1;
      passCounter.Add(at.pass, 1.0);
      rtCounter.Add(at.rt, rt);
    }

    method Fail()
      requires Valid()
      modifies this`flying
      ensures Valid() && flying == old(flying) - 1
    {
      flying := flying - 1;
    }
  }

  // ---- Concurrent callers -------------------------------------------------------------------------

  /** Where a request is. The check and the increment of `flying` are separate atomic steps. */
  datatype Pc = Outside | Checking | Passed | Dropped | Holding | Resolved

  datatype State = State(flying: int, callers: seq<Pc>)

  /** Each check sees some CPU and cool-off verdict and some nonnegative limit. */
  datatype Action =
    | Enter(i: nat)
    | Check(i: nat, overloaded: bool, maxFlight: real)
    | Increment(i: nat)
    | Resolve(i: nat)

  predicate Enabled(s: State, a: Action) {
    && a.i < |s.callers|
    && match a
       case Enter(i) => s.callers[i].Outside?
       case Check(i, _, maxFlight) => s.callers[i].Checking? && maxFlight >= 0.0
       case Increment(i) => s.callers[i].Passed?
       case Resolve(i) => s.callers[i].Holding?
  }

  function Verdict(flying: int, overloaded: bool, maxFlight: real): Pc {
    if overloaded && flying as real > maxFlight then Dropped else Passed
  }

  function Step(s: State, a: Action): State
    requires Enabled(s, a)
  {
    match a
    case Enter(i) => s.(callers := s.callers[i := Checking])
    case Check(i, overloaded, maxFlight) => s.(callers := s.callers[i := Verdict(s.flying, overloaded, maxFlight)])
    case Increment(i) => State(s.flying + 1, s.callers[i := Holding])
    case Resolve(i) => State(s.flying - 1, s.callers[i := Resolved])
  }

  predicate IsRun(s: State, actions: seq<Action>)
    decreases |actions|
  {
    actions == [] || (Enabled(s, actions[0]) && IsRun(Step(s, actions[0]), actions[1..]))
  }

  function After(s: State, actions: seq<Action>): State
    requires IsRun(s, actions)
    decreases |actions|
  {
    if actions == [] then s else After(Step(s, actions[0]), actions[1..])
  }

  function Count(callers: seq<Pc>, pcs: set<Pc>): nat {
    if callers == [] then 0
    else Count(callers[..|callers| - 1], pcs) + if callers[|callers| - 1] in pcs then 1 else 0
  }

  lemma {:induction false} CountUpdate(callers: seq<Pc>, i: nat, pc: Pc, pcs: set<Pc>)
    requires i < |callers|
    ensures Count(callers[i := pc], pcs)
      == Count(callers, pcs) - (if callers[i] in pcs then 1 else 0) + (if pc in pcs then 1 else 0)
  {
    var n := |callers| - 1;
    if i < n {
      CountUpdate(callers[..n], i, pc, pcs);
      assert callers[i := pc][..n] == callers[..n][i := pc];
    } else {
      assert callers[i := pc][..n] == callers[..n];
    }
  }

  function Outstanding(s: State): nat {
    Count(s.callers, {Holding})
  }

  lemma StepKeepsAccount(s: State, a: Action)
    requires Enabled(s, a) && s.flying == Outstanding(s)
    ensures Step(s, a).flying == Outstanding(Step(s, a))
  {
    CountUpdate(s.callers, a.i, Step(s, a).callers[a.i], {Holding});
  }

  /** In every state `flying` is the number of outstanding promises. */
  lemma {:induction false} FlyingIsOutstanding(s: State, actions: seq<Action>)
    requires s.flying == Outstanding(s) && IsRun(s, actions)
    ensures After(s, actions).flying == Outstanding(After(s, actions))
    decreases |actions|
  {
    if actions != [] {
      StepKeepsAccount(s, actions[0]);
      FlyingIsOutstanding(Step(s, actions[0]), actions[1..]);
    }
  }

  /** With no promise outstanding every check passes. */
  lemma IdleAlwaysAdmits(s: State, actions: seq<Action>, i: nat, overloaded: bool, maxFlight: real)
    requires s.flying == Outstanding(s) && IsRun(s, actions)
    requires Outstanding(After(s, actions)) == 0 && Enabled(After(s, actions), Check(i, overloaded, maxFlight))
    ensures Step(After(s, actions), Check(i, overloaded, maxFlight)).callers[i] == Passed
  {
    FlyingIsOutstanding(s, actions);
  }

  /** A check fails exactly when the system is overloaded and more promises are outstanding than the limit. */
  lemma CheckFailsIff(s: State, actions: seq<Action>, i: nat, overloaded: bool, maxFlight: real)
    requires s.flying == Outstanding(s) && IsRun(s, actions)
    requires Enabled(After(s, actions), Check(i, overloaded, maxFlight))
    ensures var s' := After(s, actions);
      Step(s', Check(i, overloaded, maxFlight)).callers[i]
        == if overloaded && Outstanding(s') as real > maxFlight then Dropped else Passed
  {
    FlyingIsOutstanding(s, actions);
  }

  /** Callers inside Allow: checking, or past the check but not yet counted. */
  function InsideAllow(s: State): nat {
    Count(s.callers, {Checking, Passed})
  }

  /** Every check finds the system overloaded with a limit of at most `m`, and at no time are more
      than `c` callers inside Allow. */
  ghost predicate Contended(s: State, actions: seq<Action>, m: real, c: nat)
    requires IsRun(s, actions)
    decreases |actions|
  {
    && InsideAllow(s) <= c
    && (actions == [] ||
        (&& (actions[0].Check? ==> actions[0].overloaded && actions[0].maxFlight <= m)
         && Contended(Step(s, actions[0]), actions[1..], m, c)))
  }

  lemma {:induction false} PassedAreInside(callers: seq<Pc>)
    ensures Count(callers, {Passed}) <= Count(callers, {Checking, Passed})
  {
    if callers != [] {
      PassedAreInside(callers[..|callers| - 1]);
    }
  }

  /** Requests counted plus requests about to be counted. */
  function Committed(s: State): int {
    s.flying + Count(s.callers, {Passed})
  }

  lemma StepKeepsBound(s: State, a: Action, m: real, c: nat)
    requires Enabled(s, a) && Committed(s) as real <= m + c as real
    requires InsideAllow(Step(s, a)) <= c
    requires a.Check? ==> a.overloaded && a.maxFlight <= m
    ensures Committed(Step(s, a)) as real <= m + c as real
  {
    var s' := Step(s, a);
    CountUpdate(s.callers, a.i, s'.callers[a.i], {Passed});
    PassedAreInside(s'.callers);
    if a.Check? && s'.callers[a.i].Passed? {
      assert s'.flying as real <= m;
      assert Committed(s') as real == s'.flying as real + Count(s'.callers, {Passed}) as real;
    } else {
      assert Committed(s') <= Committed(s);
    }
  }

  /** Under overload with limits of at most m and at most c callers inside Allow, a run that starts
      with no more than m + c requests in flight or past their check never exceeds m + c. */
  lemma {:induction false} OverloadBound(s: State, actions: seq<Action>, m: real, c: nat)
    requires IsRun(s, actions) && Contended(s, actions, m, c) && Committed(s) as real <= m + c as real
    ensures After(s, actions).flying as real <= m + c as real
    decreases |actions|
  {
    if actions != [] {
      StepKeepsBound(s, actions[0], m, c);
      OverloadBound(Step(s, actions[0]), actions[1..], m, c);
    }
  }
}
