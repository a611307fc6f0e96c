/** The ring of time buckets behind the circuit breaker's window and the load
    shedder's counters, and the plain log it stands for.

    Time is an integer number of nanoseconds. Rotating the ring restarts the
    bucket clock at `now`, not at a multiple of the bucket time, so rotations
    drift; the retention theorems below give the exact consequences. */
module RollingRing {
  import opened Arithmetic
  import opened Common

  /** One recorded value, with the rotation during which it was recorded. */
  datatype Entry<+T> = Entry(rotation: nat, time: int, value: T)

  /** Everything ever recorded, and the number of rotations made so far. */
  datatype Log<+T> = Log(rotation: nat, lastTime: int, entries: seq<Entry<T>>)

  datatype Op<+T> = Add(now: int, value: T) | Read(now: int)

  function NewLog<T>(now: int): Log<T> {
    Log(0, now, [])
  }

  /** Number of buckets passed since the last rotation; not positive when the clock went back. */
  function Elapsed(lastTime: int, now: int, bucketTime: int): int
    requires bucketTime > 0
  {
    (now - lastTime) / bucketTime
  }

  function Advanced<T>(log: Log<T>, size: nat, bucketTime: int, now: int): Log<T>
    requires bucketTime > 0
  {
    var elapsed := Elapsed(log.lastTime, now, bucketTime);
    if elapsed <= 0 then log else Log(log.rotation + Min(elapsed, size), now, log.entries)
  }

  function Recorded<T>(log: Log<T>, size: nat, bucketTime: int, now: int, value: T): Log<T>
    requires bucketTime > 0
  {
    var next := Advanced(log, size, bucketTime, now);
    next.(entries := next.entries + [Entry(next.rotation, now, value)])
  }

  function Step<T>(log: Log<T>, size: nat, bucketTime: int, op: Op<T>): Log<T>
    requires bucketTime > 0
  {
    match op
    case Add(now, value) => Recorded(log, size, bucketTime, now, value)
    case Read(now) => Advanced(log, size, bucketTime, now)
  }

  function Run<T>(log: Log<T>, size: nat, bucketTime: int, ops: seq<Op<T>>): Log<T>
    requires bucketTime > 0
  {
    if ops == [] then log
    else Step(Run(log, size, bucketTime, ops[..|ops| - 1]), size, bucketTime, ops[|ops| - 1])
  }

  /** The clock never goes back, starting from the creation time. */
  ghost predicate Ordered<T>(start: int, ops: seq<Op<T>>) {
    && (forall i | 0 <= i < |ops| :: start <= ops[i].now)
    && (forall i, j | 0 <= i < j < |ops| :: ops[i].now <= ops[j].now)
  }

  function Clock<T>(start: int, ops: seq<Op<T>>): int {
    if ops == [] then start else ops[|ops| - 1].now
  }

  /** The entry's bucket has not been reused yet: its rotation is among the last `size` ones. */
  predicate InWindow<T>(log: Log<T>, size: nat, e: Entry<T>) {
    log.rotation - size < e.rotation
  }

  /** Content of the bucket of rotation `r`: the values recorded during it, in order. */
  function BucketOf<T>(zero: T, plus: (T, T) -> T, entries: seq<Entry<T>>, r: int): T {
    if entries == [] then zero
    else
      var last := entries[|entries| - 1];
      var before := BucketOf(zero, plus, entries[..|entries| - 1], r);
      if last.rotation == r then plus(before, last.value) else before
  }

  lemma {:induction false} BucketOfFutureIsEmpty<T>(zero: T, plus: (T, T) -> T, entries: seq<Entry<T>>, r: int)
    requires forall e | e in entries :: e.rotation < r
    ensures BucketOf(zero, plus, entries, r) == zero
  {
    if entries != [] {
      assert entries[|entries| - 1] in entries;
      BucketOfFutureIsEmpty(zero, plus, entries[..|entries| - 1], r);
    }
  }

  /** The source's ring: a fixed array of buckets, zeroed lazily as time passes.
      `log` is what the ring is proved to represent. */
  class Ring<T> {
    const size: nat
    const bucketTime: int
    const zero: T
    const plus: (T, T) -> T
    const buckets: array<T>
    var offset: nat
    var lastTime: int
    ghost var log: Log<T>

    ghost predicate Valid()
      reads this, buckets
    {
      && 0 < size == buckets.Length
      && 0 < bucketTime
      && offset == log.rotation % size
      && lastTime == log.lastTime
      && (forall e | e in log.entries :: e.rotation <= log.rotation)
      && Holds(log.rotation)
    }

    /** Every slot holds exactly what the log recorded in the slot's rotation. */
    ghost predicate Holds(rotation: int)
      reads this, buckets
    {
      && 0 < size == buckets.Length
      && forall r | rotation - size < r <= rotation ::
          buckets[r % size] == BucketOf(zero, plus, log.entries, r)
    }

    constructor (size: nat, bucketTime: int, zero: T, plus: (T, T) -> T, now: int)
      requires 0 < size && 0 < bucketTime
      ensures Valid() && fresh(buckets)
      ensures this.size == size && this.bucketTime == bucketTime
      ensures this.zero == zero && this.plus == plus
      ensures log == NewLog(now)
    {
      this.size := size;
      this.bucketTime := bucketTime;
      this.zero := zero;
      this.plus := plus;
      buckets := new T[size](_ => zero);
      offset := 0;
      lastTime := now;
      log := NewLog(now);
    }

    method Advance(now: int)
      requires Valid()
      modifies this`offset, this`lastTime, this`log, buckets
      ensures Valid()
      ensures log == Advanced(old(log), size, bucketTime, now)
    {
      var elapsed := Elapsed(lastTime, now, bucketTime);
      if elapsed <= 0 {
        return;
      }
      if elapsed > size {
        elapsed := size;
      }
      ghost var first := log.rotation;
      for i := 0 to elapsed
        invariant lastTime == old(lastTime) && log == old(log)
        invariant offset == (first + i) % size
        invariant Holds(first + i)
      {
        ghost var rotation := first + i + 1;
        assert (offset + 1) % size == rotation % size by { RemainderOfSuccessor(first + i, size); }
        offset := (offset + 1) % size;
        buckets[offset] := zero;
        BucketOfFutureIsEmpty(zero, plus, log.entries, rotation);
        forall r | rotation - size < r <= rotation
          ensures buckets[r % size] == BucketOf(zero, plus, log.entries, r)
        {
          if r < rotation { RemaindersDiffer(rotation, r, size); }
        }
      }
      lastTime := now;
      log := Log(first + elapsed, now, log.entries);
    }

    method Record(now: int, value: T)
      requires Valid()
      modifies this`offset, this`lastTime, this`log, buckets
      ensures Valid()
      ensures log == Recorded(old(log), size, bucketTime, now, value)
    {
      Advance(now);
      ghost var before := log.entries;
      buckets[offset] := plus(buckets[offset], value);
      log := log.(entries := log.entries + [Entry(log.rotation, now, value)]);
      assert log.entries[..|log.entries| - 1] == before;
      forall r | log.rotation - size < r <= log.rotation
        ensures buckets[r % size] == BucketOf(zero, plus, log.entries, r)
      {
        if r < log.rotation { RemaindersDiffer(log.rotation, r, size); }
      }
    }
  }

  /** The latest rotation up to `rotation` that uses slot `i`. */
  function RotationOfSlot(i: nat, size: nat, rotation: int): (r: int)
    requires i < size
    ensures rotation - size < r <= rotation && r % size == i
  {
    var m := (rotation - i) % size;
    assert (rotation - m) % size == i by { DivUnique(rotation - m, (rotation - i) / size, i, size); }
    rotation - m
  }

  // ---- Retention ----------------------------------------------------------

  /** How far the bucket clock may be from a recorded time, in terms of the rotations since.
      The second bound says the bucket clock cannot lag by more than the rotations explain;
      the first that it cannot lead by more. */
  ghost predicate Drift<T>(log: Log<T>, size: nat, bucketTime: int, e: Entry<T>) {
    var k := log.rotation - e.rotation;
    && 0 <= k
    && (k < size ==> log.lastTime - e.time <= k * (2 * bucketTime - 1))
    && k * bucketTime <= log.lastTime - e.time + bucketTime - 1
  }

  lemma DriftGrowth(k: nat, n: int, size: nat, bucketTime: int, gap: int)
    requires bucketTime > 0 && n > 0 && n == gap / bucketTime
    ensures (k + Min(n, size)) * bucketTime <= k * bucketTime + gap
    ensures k * (2 * bucketTime - 1) + gap <= (k + n) * (2 * bucketTime - 1)
  {
    DivBounds(gap, bucketTime);
    MulAdd(k, Min(n, size), bucketTime);
    MulMono(Min(n, size), n, bucketTime);
    MulAdd(k, n, 2 * bucketTime - 1);
    MulMono(1, n, bucketTime - 1);
    assert n * (2 * bucketTime - 1) == n * bucketTime + n * (bucketTime - 1);
  }

  lemma AdvanceKeepsDrift<T>(log: Log<T>, size: nat, bucketTime: int, now: int, e: Entry<T>)
    requires bucketTime > 0 && Drift(log, size, bucketTime, e)
    ensures Drift(Advanced(log, size, bucketTime, now), size, bucketTime, e)
  {
    var n := Elapsed(log.lastTime, now, bucketTime);
    if n > 0 {
      DriftGrowth(log.rotation - e.rotation, n, size, bucketTime, now - log.lastTime);
    }
  }

  /** After any operation the bucket clock is less than one bucket behind the wall clock. */
  lemma AdvanceCatchesUp<T>(log: Log<T>, size: nat, bucketTime: int, now: int)
    requires bucketTime > 0 && log.lastTime <= now
    ensures Advanced(log, size, bucketTime, now).lastTime <= now
    ensures now - Advanced(log, size, bucketTime, now).lastTime < bucketTime
  {
    DivBounds(now - log.lastTime, bucketTime);
  }

  lemma {:induction false} RunKeepsDrift<T>(start: int, size: nat, bucketTime: int, ops: seq<Op<T>>)
    requires bucketTime > 0 && Ordered(start, ops)
    ensures var log := Run(NewLog(start), size, bucketTime, ops);
      && 0 <= Clock(start, ops) - log.lastTime < bucketTime
      && (forall e | e in log.entries :: Drift(log, size, bucketTime, e) && e.time <= Clock(start, ops))
  {
    if ops != [] {
      var before, op := ops[..|ops| - 1], ops[|ops| - 1];
      RunKeepsDrift(start, size, bucketTime, before);
      var log := Run(NewLog(start), size, bucketTime, before);
      assert Clock(start, before) <= op.now;
      AdvanceCatchesUp(log, size, bucketTime, op.now);
      forall e | e in Step(log, size, bucketTime, op).entries
        ensures Drift(Step(log, size, bucketTime, op), size, bucketTime, e) && e.time <= op.now
      {
        StepKeepsDrift(log, size, bucketTime, Clock(start, before), op, e);
      }
    }
  }

  lemma StepKeepsDrift<T>(log: Log<T>, size: nat, bucketTime: int, clock: int, op: Op<T>, e: Entry<T>)
    requires bucketTime > 0 && log.lastTime <= clock <= op.now && e in Step(log, size, bucketTime, op).entries
    requires e in log.entries ==> Drift(log, size, bucketTime, e) && e.time <= clock
    ensures Drift(Step(log, size, bucketTime, op), size, bucketTime, e) && e.time <= op.now
  {
    if e in log.entries {
      AdvanceKeepsDrift(log, size, bucketTime, op.now, e);
    } else {
      AdvanceCatchesUp(log, size, bucketTime, op.now);
    }
  }

  /** Two-sided retention, for every schedule on a clock that never goes back: a value recorded
      at t is in the window read at u when u - t <= (size-1)*bucketTime, and is out of it
      as soon as u - t exceeds (2*size-1)*bucketTime - size. */
  lemma Retention<T>(start: int, size: nat, bucketTime: int, ops: seq<Op<T>>, u: int, e: Entry<T>)
    requires size > 0 && bucketTime > 0 && Ordered(start, ops) && Clock(start, ops) <= u
    requires e in Run(NewLog(start), size, bucketTime, ops).entries
    ensures u - e.time <= (size - 1) * bucketTime ==>
      InWindow(Advanced(Run(NewLog(start), size, bucketTime, ops), size, bucketTime, u), size, e)
    ensures u - e.time > (2 * size - 1) * bucketTime - size ==>
      !InWindow(Advanced(Run(NewLog(start), size, bucketTime, ops), size, bucketTime, u), size, e)
  {
    RunKeepsDrift(start, size, bucketTime, ops);
    var log := Run(NewLog(start), size, bucketTime, ops);
    AdvanceKeepsDrift(log, size, bucketTime, u, e);
    AdvanceCatchesUp(log, size, bucketTime, u);
    var now := Advanced(log, size, bucketTime, u);
    var k := now.rotation - e.rotation;
    MulAdd(size, -1, bucketTime);
    LongestStay(size, bucketTime);
    if k >= size {
      MulMono(size, k, bucketTime);
    } else {
      MulMono(k, size - 1, 2 * bucketTime - 1);
    }
  }

  /** Once everything recorded is (2*size-1)*bucketTime old, the window is empty. */
  lemma WindowEmpties<T>(start: int, size: nat, bucketTime: int, ops: seq<Op<T>>, u: int)
    requires size > 0 && bucketTime > 0 && Ordered(start, ops) && Clock(start, ops) <= u
    requires forall e | e in Run(NewLog(start), size, bucketTime, ops).entries ::
      u - e.time >= (2 * size - 1) * bucketTime
    ensures var log := Advanced(Run(NewLog(start), size, bucketTime, ops), size, bucketTime, u);
      forall e | e in log.entries :: !InWindow(log, size, e)
  {
    forall e | e in Run(NewLog(start), size, bucketTime, ops).entries
      ensures !InWindow(Advanced(Run(NewLog(start), size, bucketTime, ops), size, bucketTime, u), size, e)
    {
      Retention(start, size, bucketTime, ops, u, e);
    }
  }

  lemma LongestStay(size: int, bucketTime: int)
    ensures (size - 1) * (2 * bucketTime - 1) + bucketTime - 1 == (2 * size - 1) * bucketTime - size
  {
    assert (size - 1) * (2 * bucketTime - 1) == 2 * (size * bucketTime) - size - 2 * bucketTime + 1;
    assert (2 * size - 1) * bucketTime == 2 * (size * bucketTime) - bucketTime;
  }

  // ---- The two bounds cannot be improved ------------------------------------

  /** One value recorded at `start`, then `n` reads, each `gap` after the one before. */
  function SpacedReads(start: int, gap: nat, n: nat): seq<Op<bool>> {
    if n == 0 then [Add(start, true)]
    else SpacedReads(start, gap, n - 1) + [Read(start + n * gap)]
  }

  lemma {:induction false} SpacedReadsAreOrdered(start: int, gap: nat, n: nat)
    ensures var ops := SpacedReads(start, gap, n);
      && ops != [] && Ordered(start, ops) && Clock(start, ops) == start + n * gap
  {
    if n > 0 {
      SpacedReadsAreOrdered(start, gap, n - 1);
      MulAdd(n - 1, 1, gap);
      MulMono(0, n - 1, gap);
      var before := SpacedReads(start, gap, n - 1);
      assert forall i | 0 <= i < |before| :: before[i].now <= before[|before| - 1].now;
    }
  }

  /** Reads almost two buckets apart turn the ring by one bucket only. */
  lemma {:induction false} SpacedReadsRotateOnceEach(start: int, size: nat, bucketTime: int, n: nat)
    requires size > 0 && bucketTime > 0
    ensures Run(NewLog(start), size, bucketTime, SpacedReads(start, 2 * bucketTime - 1, n))
         == Log(n, start + n * (2 * bucketTime - 1), [Entry(0, start, true)])
  {
    var gap := 2 * bucketTime - 1;
    var ops := SpacedReads(start, gap, n);
    if n == 0 {
      assert ops[..0] == [];
      DivUnique(0, 0, 0, bucketTime);
    } else {
      SpacedReadsRotateOnceEach(start, size, bucketTime, n - 1);
      assert ops[..|ops| - 1] == SpacedReads(start, gap, n - 1);
      MulAdd(n - 1, 1, gap);
      DivUnique(gap, 1, bucketTime - 1, bucketTime);
    }
  }

  /** The upper bound is attained: for every ring some schedule still has a value recorded at t
      in the window at u - t == (2*size-1)*bucketTime - size. */
  lemma LongestStayIsReached(start: int, size: nat, bucketTime: int)
    requires size > 0 && bucketTime > 0
    ensures var ops := SpacedReads(start, 2 * bucketTime - 1, size - 1);
      var u := start + (2 * size - 1) * bucketTime - size;
      var log := Run(NewLog(start), size, bucketTime, ops);
      && Ordered(start, ops) && Clock(start, ops) <= u
      && log.entries == [Entry(0, start, true)]
      && InWindow(Advanced(log, size, bucketTime, u), size, log.entries[0])
  {
    SpacedReadsAreOrdered(start, 2 * bucketTime - 1, size - 1);
    SpacedReadsRotateOnceEach(start, size, bucketTime, size - 1);
    var u, last := start + (2 * size - 1) * bucketTime - size, start + (size - 1) * (2 * bucketTime - 1);
    assert u - last == bucketTime - 1 by { LongestStay(size, bucketTime); }
    assert Elapsed(last, u, bucketTime) == 0 by { DivUnique(bucketTime - 1, 0, bucketTime - 1, bucketTime); }
  }

  /** The lower bound is attained: for every ring some schedule has already dropped a value
      recorded at t at u - t == (size-1)*bucketTime + 1. */
  lemma ShortestStayIsReached(start: int, size: nat, bucketTime: int)
    requires size > 0 && bucketTime > 0
    ensures var t, u := start + bucketTime - 1, start + size * bucketTime;
      var log := Run(NewLog(start), size, bucketTime, [Add(t, true)]);
      && u - t == (size - 1) * bucketTime + 1
      && log.entries == [Entry(0, t, true)]
      && !InWindow(Advanced(log, size, bucketTime, u), size, log.entries[0])
  {
    var t := start + bucketTime - 1;
    var ops := [Add(t, true)];
    assert ops[..0] == [];
    DivUnique(bucketTime - 1, 0, bucketTime - 1, bucketTime);
    assert Run(NewLog(start), size, bucketTime, ops) == Log(0, start, [Entry(0, t, true)]);
    DivUnique(size * bucketTime, size, 0, bucketTime);
    MulAdd(size, -1, bucketTime);
  }

  // ---- The log forgets nothing ----------------------------------------------

  function Outcomes<T>(ops: seq<Op<T>>): seq<(int, T)> {
    if ops == [] then []
    else
      var before, op := Outcomes(ops[..|ops| - 1]), ops[|ops| - 1];
      if op.Add? then before + [(op.now, op.value)] else before
  }

  /** The entries are exactly the recorded outcomes, in order: nothing is lost or invented. */
  lemma {:induction false} LogIsFaithful<T>(start: int, size: nat, bucketTime: int, ops: seq<Op<T>>)
    requires bucketTime > 0
    ensures var entries := Run(NewLog(start), size, bucketTime, ops).entries;
      && |entries| == |Outcomes(ops)|
      && forall i | 0 <= i < |entries| :: (entries[i].time, entries[i].value) == Outcomes(ops)[i]
  {
    if ops != [] {
      LogIsFaithful(start, size, bucketTime, ops[..|ops| - 1]);
    }
  }
}
