/** Snowflake ids: a millisecond stamp, a worker number and a sequence number packed into one integer.
    Integers are unbounded here; `IdFits` shows that inside the 41-bit time range no id leaves int64. */
module Snowflake {
  import opened Arithmetic
  import opened Common

  const WORKER_MAX := 1023
  const NUMBER_MAX := 4095
  const TIME_UNIT := 0x40_0000      // 1 << 22
  const WORKER_UNIT := 0x1000       // 1 << 12
  const EPOCH := 1652751577000
  const TIME_RANGE := 0x200_0000_0000   // 1 << 41

  // ---- Bitwise or on two's complement integers ------------------------------------------------

  function Magnitude(a: int): nat {
    if a >= 0 then a else -1 - a
  }

  function BitOr(a: int, b: int): int
    decreases Magnitude(a) + Magnitude(b)
  {
    if Magnitude(a) == 0 && Magnitude(b) == 0 then (if a == -1 || b == -1 then -1 else 0)
    else 2 * BitOr(a / 2, b / 2) + (if a % 2 == 1 || b % 2 == 1 then 1 else 0)
  }

  function Pow2(k: nat): nat {
    if k == 0 then 1 else 2 * Pow2(k - 1)
  }

  lemma {:induction false} OrZero(a: int)
    ensures BitOr(a, 0) == a
    decreases Magnitude(a)
  {
    if Magnitude(a) != 0 {
      OrZero(a / 2);
    }
  }

  /** Or-ing into zero bits is adding. */
  lemma {:induction false} OrDisjoint(x: int, y: nat, k: nat)
    requires y < Pow2(k)
    ensures BitOr(x * Pow2(k), y) == x * Pow2(k) + y
    decreases k
  {
    if k == 0 {
      OrZero(x);
    } else {
      var half := x * Pow2(k - 1);
      assert x * Pow2(k) == 2 * half;
      OrDisjoint(x, y / 2, k - 1);
      if half == 0 && y == 0 {
        OrZero(0);
      } else {
        assert BitOr(2 * half, y) == 2 * BitOr(half, y / 2) + y % 2;
      }
    }
  }

  /** Shifting both operands shifts the result. */
  lemma {:induction false} OrShifted(x: int, y: int, k: nat)
    ensures BitOr(x * Pow2(k), y * Pow2(k)) == BitOr(x, y) * Pow2(k)
    decreases k
  {
    if k > 0 {
      OrShifted(x, y, k - 1);
      OrDoubled(x * Pow2(k - 1), y * Pow2(k - 1));
      Doubled(x, k);
      Doubled(y, k);
      Doubled(BitOr(x, y), k);
    }
  }

  lemma OrDoubled(a: int, b: int)
    ensures BitOr(2 * a, 2 * b) == 2 * BitOr(a, b)
  {
    if a == 0 && b == 0 {
      OrZero(0);
    } else {
      assert 2 * a / 2 == a && 2 * b / 2 == b;
    }
  }

  lemma Doubled(x: int, k: nat)
    requires k > 0
    ensures x * Pow2(k) == 2 * (x * Pow2(k - 1))
  {
  }

  function LowBitSet(w: int): int {
    if w % 2 == 1 then w else w + 1
  }

  lemma OrOne(x: int)
    ensures BitOr(x, 1) == LowBitSet(x)
  {
    OrZero(x / 2);
  }

  // ---- Ids --------------------------------------------------------------------------------------

  /** What one call stamps its id with; an overflowing call is one that found the millisecond's
      numbers used up and waited for the next one. */
  datatype Stamp = Stamp(ms: int, number: nat, overflow: bool)

  function IdOf(workerID: int, s: Stamp): int {
    BitOr(BitOr((s.ms - EPOCH) * TIME_UNIT, workerID * WORKER_UNIT), s.number)
  }

  /** The id as positional digits. */
  function Packed(ms: int, workerID: int, number: int): int {
    ((ms - EPOCH) * 1024 + workerID) * WORKER_UNIT + number
  }

  predicate ValidWorker(workerID: int) {
    0 <= workerID <= WORKER_MAX
  }

  lemma Units()
    ensures Pow2(12) == WORKER_UNIT && Pow2(22) == TIME_UNIT
  {
    assert Pow2(4) == 16 && Pow2(8) == 256 && Pow2(12) == 4096;
    assert Pow2(16) == 65536 && Pow2(20) == 0x10_0000 && Pow2(22) == 0x40_0000;
  }

  lemma TimeAndWorker(t: int, workerID: int)
    requires ValidWorker(workerID)
    ensures BitOr(t * TIME_UNIT, workerID * WORKER_UNIT) == (t * 1024 + workerID) * WORKER_UNIT
  {
    Units();
    OrDisjoint(t, workerID * WORKER_UNIT, 22);
  }

  lemma PlainId(workerID: int, s: Stamp)
    requires ValidWorker(workerID) && s.number <= NUMBER_MAX
    ensures IdOf(workerID, s) == Packed(s.ms, workerID, s.number)
  {
    Units();
    TimeAndWorker(s.ms - EPOCH, workerID);
    OrDisjoint((s.ms - EPOCH) * 1024 + workerID, s.number, 12);
  }

  /** The id spelled out: milliseconds since 1652751577000, ten bits of worker, twelve of number. */
  lemma IdSpelledOut(workerID: int, s: Stamp)
    requires ValidWorker(workerID) && s.number <= 4095
    ensures IdOf(workerID, s) == (s.ms - 1652751577000) * 4194304 + workerID * 4096 + s.number
  {
    PlainId(workerID, s);
  }

  /** An overflowing call's id is the one of (new millisecond, worker with its low bit set, number 0). */
  lemma OverflowId(workerID: int, s: Stamp)
    requires ValidWorker(workerID) && s.number == NUMBER_MAX + 1
    ensures IdOf(workerID, s) == Packed(s.ms, LowBitSet(workerID), 0)
  {
    var t := s.ms - EPOCH;
    TimeAndWorker(t, workerID);
    assert IdOf(workerID, s) == BitOr((t * 1024 + workerID) * WORKER_UNIT, WORKER_UNIT);
    OverflowCarries(t, workerID);
  }

  lemma OverflowCarries(t: int, w: int)
    ensures BitOr((t * 1024 + w) * WORKER_UNIT, WORKER_UNIT) == (t * 1024 + LowBitSet(w)) * WORKER_UNIT
  {
    OrNextUnit(t * 1024 + w);
    LowBitOfSum(t, w);
  }

  lemma LowBitOfSum(t: int, w: int)
    ensures LowBitSet(t * 1024 + w) == t * 1024 + LowBitSet(w)
  {
    assert (2 * (t * 512) + w) % 2 == w % 2;
  }

  /** So it is the regular id some worker - this one if odd, its neighbour if even - has for number 0. */
  lemma OverflowIdIsRegular(workerID: int, s: Stamp)
    requires ValidWorker(workerID) && s.number == NUMBER_MAX + 1
    ensures ValidWorker(LowBitSet(workerID))
    ensures IdOf(workerID, s) == IdOf(LowBitSet(workerID), Stamp(s.ms, 0, false))
  {
    OverflowId(workerID, s);
    PlainId(LowBitSet(workerID), Stamp(s.ms, 0, false));
  }

  lemma OrNextUnit(x: int)
    ensures BitOr(x * WORKER_UNIT, WORKER_UNIT) == LowBitSet(x) * WORKER_UNIT
  {
    Units();
    OrShifted(x, 1, 12);
    OrOne(x);
  }

  lemma PackedParts(ms: int, workerID: int, number: int)
    requires ValidWorker(workerID) && 0 <= number <= NUMBER_MAX
    ensures var id := Packed(ms, workerID, number);
      id / TIME_UNIT == ms - EPOCH && id % TIME_UNIT / WORKER_UNIT == workerID && id % WORKER_UNIT == number
  {
    var low := workerID * WORKER_UNIT + number;
    DivUnique(Packed(ms, workerID, number), ms - EPOCH, low, TIME_UNIT);
    DivUnique(low, workerID, number, WORKER_UNIT);
    DivUnique(Packed(ms, workerID, number), (ms - EPOCH) * 1024 + workerID, number, WORKER_UNIT);
  }

  /** Go's division truncates toward zero. */
  function TruncatedDiv(a: int, b: int): int
    requires b > 0
  {
    if a >= 0 then a / b else -((-a) / b)
  }

  datatype Fields = Fields(id: int, time: int, worker: int, number: int)

  function Unmarshal(id: int): Fields {
    Fields(id, TruncatedDiv(id / TIME_UNIT + EPOCH, 1000), id % TIME_UNIT / WORKER_UNIT, id % WORKER_UNIT)
  }

  /** Unmarshal gives back the worker, the number and the whole seconds of every regular id. */
  lemma UnmarshalUndoesGet(workerID: int, s: Stamp)
    requires ValidWorker(workerID) && s.number <= NUMBER_MAX
    ensures Unmarshal(IdOf(workerID, s))
      == Fields(IdOf(workerID, s), TruncatedDiv(s.ms, 1000), workerID, s.number)
    ensures var time := Unmarshal(IdOf(workerID, s)).time;
      if s.ms >= 0 then 1000 * time <= s.ms < 1000 * time + 1000 else 1000 * time - 1000 < s.ms <= 1000 * time
  {
    PlainId(workerID, s);
    PackedParts(s.ms, workerID, s.number);
  }

  /** Inside the 41-bit range every id, overflowing or not, is a nonnegative int64. */
  lemma IdFits(workerID: int, s: Stamp)
    requires ValidWorker(workerID) && 0 <= s.ms - EPOCH < TIME_RANGE && s.number <= NUMBER_MAX + 1
    ensures 0 <= IdOf(workerID, s) < 0x8000_0000_0000_0000
  {
    if s.number <= NUMBER_MAX {
      PlainId(workerID, s);
    } else {
      OverflowId(workerID, s);
    }
  }

  /** Regular ids of different workers never collide. */
  lemma WorkersNeverCollide(a: int, s: Stamp, b: int, t: Stamp)
    requires ValidWorker(a) && ValidWorker(b) && a != b && s.number <= NUMBER_MAX && t.number <= NUMBER_MAX
    ensures IdOf(a, s) != IdOf(b, t)
  {
    UnmarshalUndoesGet(a, s);
    UnmarshalUndoesGet(b, t);
  }

  // ---- Runs of one worker -----------------------------------------------------------------------

  datatype Worker = Worker(timestamp: int, number: nat)

  /** The clock readings of one call: the first one, and the first one past the worker's timestamp
      in case the call has to wait. */
  datatype Tick = Tick(now: int, spun: int)

  const FRESH := Worker(0, 0)

  predicate Overflows(w: Worker, t: Tick) {
    w.timestamp == t.now && w.number + 1 > NUMBER_MAX
  }

  function Next(w: Worker, t: Tick): Worker {
    if w.timestamp == t.now then w.(number := w.number + 1) else Worker(t.now, 0)
  }

  function StampOf(w: Worker, t: Tick): Stamp {
    Stamp(if Overflows(w, t) then t.spun else t.now, Next(w, t).number, Overflows(w, t))
  }

  function Stamps(w: Worker, ticks: seq<Tick>): (stamps: seq<Stamp>)
    ensures |stamps| == |ticks|
    decreases |ticks|
  {
    if ticks == [] then [] else [StampOf(w, ticks[0])] + Stamps(Next(w, ticks[0]), ticks[1..])
  }

  /** The clock never goes back, and a waiting call stops at a reading past the timestamp. */
  predicate Timely(w: Worker, clock: int, ticks: seq<Tick>)
    decreases |ticks|
  {
    ticks == [] ||
      (&& clock <= ticks[0].now
       && (Overflows(w, ticks[0]) ==> ticks[0].spun > w.timestamp)
       && Timely(Next(w, ticks[0]), StampOf(w, ticks[0]).ms, ticks[1..]))
  }

  ghost predicate WorkerOk(w: Worker, clock: int) {
    w.timestamp <= clock && w.number <= NUMBER_MAX + 1 && (w.number == NUMBER_MAX + 1 ==> w.timestamp < clock)
  }

  lemma StepKeepsWorkerOk(w: Worker, clock: int, t: Tick)
    requires WorkerOk(w, clock) && clock <= t.now && (Overflows(w, t) ==> t.spun > w.timestamp)
    ensures WorkerOk(Next(w, t), StampOf(w, t).ms)
    ensures StampOf(w, t).number <= NUMBER_MAX + 1
    ensures StampOf(w, t).number == NUMBER_MAX + 1 <==> StampOf(w, t).overflow
  {
  }

  /** The number never exceeds 4096, and reaches it exactly in the overflowing calls. */
  lemma {:induction false} NumbersAreBounded(w: Worker, clock: int, ticks: seq<Tick>)
    requires WorkerOk(w, clock) && Timely(w, clock, ticks)
    ensures forall k | 0 <= k < |ticks| ::
      && Stamps(w, ticks)[k].number <= NUMBER_MAX + 1
      && (Stamps(w, ticks)[k].overflow <==> Stamps(w, ticks)[k].number == NUMBER_MAX + 1)
    decreases |ticks|
  {
    if ticks != [] {
      StepKeepsWorkerOk(w, clock, ticks[0]);
      NumbersAreBounded(Next(w, ticks[0]), StampOf(w, ticks[0]).ms, ticks[1..]);
    }
  }

  /** The order in which one worker's stamps are issued. */
  ghost predicate Before(a: Stamp, b: Stamp) {
    a.ms < b.ms || (a.ms == b.ms && !b.overflow && (a.overflow || a.number < b.number))
  }

  /** Stamp `a` was issued earlier than anything the worker in this state will issue. */
  ghost predicate Issued(a: Stamp, w: Worker, clock: int) {
    && a.ms <= clock
    && (w.timestamp < a.ms ==> a.overflow)
    && (w.timestamp == a.ms ==> a.overflow || a.number <= w.number)
  }

  lemma StepAfterIssued(a: Stamp, w: Worker, clock: int, t: Tick)
    requires WorkerOk(w, clock) && Issued(a, w, clock)
    requires clock <= t.now && (Overflows(w, t) ==> t.spun > w.timestamp)
    ensures Before(a, StampOf(w, t)) && Issued(a, Next(w, t), StampOf(w, t).ms)
  {
  }

  lemma {:induction false} RestAfterIssued(a: Stamp, w: Worker, clock: int, ticks: seq<Tick>)
    requires WorkerOk(w, clock) && Issued(a, w, clock) && Timely(w, clock, ticks)
    ensures forall k | 0 <= k < |ticks| :: Before(a, Stamps(w, ticks)[k])
    decreases |ticks|
  {
    if ticks != [] {
      StepKeepsWorkerOk(w, clock, ticks[0]);
      StepAfterIssued(a, w, clock, ticks[0]);
      RestAfterIssued(a, Next(w, ticks[0]), StampOf(w, ticks[0]).ms, ticks[1..]);
    }
  }

  lemma {:induction false} StampsInOrder(w: Worker, clock: int, ticks: seq<Tick>)
    requires WorkerOk(w, clock) && Timely(w, clock, ticks)
    ensures forall i, j | 0 <= i < j < |ticks| :: Before(Stamps(w, ticks)[i], Stamps(w, ticks)[j])
    decreases |ticks|
  {
    if ticks != [] {
      var first, w', clock' := StampOf(w, ticks[0]), Next(w, ticks[0]), StampOf(w, ticks[0]).ms;
      StepKeepsWorkerOk(w, clock, ticks[0]);
      RestAfterIssued(first, w', clock', ticks[1..]);
      StampsInOrder(w', clock', ticks[1..]);
    }
  }

  /** Ids of calls that do not overflow strictly increase. */
  lemma RegularIdsIncrease(workerID: int, clock: int, ticks: seq<Tick>, i: nat, j: nat)
    requires ValidWorker(workerID) && 0 <= clock && Timely(FRESH, clock, ticks) && i < j < |ticks|
    requires !Stamps(FRESH, ticks)[i].overflow && !Stamps(FRESH, ticks)[j].overflow
    ensures IdOf(workerID, Stamps(FRESH, ticks)[i]) < IdOf(workerID, Stamps(FRESH, ticks)[j])
  {
    StampsInOrder(FRESH, clock, ticks);
    NumbersAreBounded(FRESH, clock, ticks);
    var a, b := Stamps(FRESH, ticks)[i], Stamps(FRESH, ticks)[j];
    assert Before(a, b);
    PlainId(workerID, a);
    PlainId(workerID, b);
  }

  // ---- Overflows, read off the clock ------------------------------------------------------------------

  /** The first clock reading of call `k`; a fresh worker looks as if it had been called at time 0. */
  function Reading(ticks: seq<Tick>, k: int): int
    requires -1 <= k < |ticks|
  {
    if k == -1 then 0 else ticks[k].now
  }

  /** Call `k` finds all 4096 numbers of its millisecond used up. */
  predicate FullAt(ticks: seq<Tick>, k: nat)
    requires k < |ticks|
  {
    k >= NUMBER_MAX && Reading(ticks, k - NUMBER_MAX - 1) == ticks[k].now
  }

  /** The millisecond call `k` stamps its id with. */
  function MomentAt(ticks: seq<Tick>, k: nat): int
    requires k < |ticks|
  {
    if FullAt(ticks, k) then ticks[k].spun else ticks[k].now
  }

  function WorkerAt(w: Worker, ticks: seq<Tick>, k: nat): Worker
    requires k <= |ticks|
    decreases k
  {
    if k == 0 then w else WorkerAt(Next(w, ticks[0]), ticks[1..], k - 1)
  }

  lemma {:induction false} WorkerMoves(w: Worker, ticks: seq<Tick>, k: nat)
    requires k < |ticks|
    ensures WorkerAt(w, ticks, k + 1) == Next(WorkerAt(w, ticks, k), ticks[k])
    ensures Stamps(w, ticks)[k] == StampOf(WorkerAt(w, ticks, k), ticks[k])
    decreases k
  {
    if k > 0 {
      WorkerMoves(Next(w, ticks[0]), ticks[1..], k - 1);
    }
  }

  lemma {:induction false} ReadingsAreOrdered(w: Worker, clock: int, ticks: seq<Tick>)
    requires Timely(w, clock, ticks)
    ensures forall i, j | 0 <= i <= j < |ticks| :: clock <= ticks[i].now <= ticks[j].now
    decreases |ticks|
  {
    if ticks != [] {
      ReadingsAreOrdered(Next(w, ticks[0]), StampOf(w, ticks[0]).ms, ticks[1..]);
      forall i, j | 0 <= i <= j < |ticks| ensures clock <= ticks[i].now <= ticks[j].now {
        if j > 0 {
          assert ticks[1..][j - 1] == ticks[j];
        }
        if i > 0 {
          assert ticks[1..][i - 1] == ticks[i];
        }
      }
    }
  }

  lemma EarlierReading(clock: int, ticks: seq<Tick>, i: int, j: int)
    requires 0 <= clock && Timely(FRESH, clock, ticks) && -1 <= i <= j < |ticks|
    ensures Reading(ticks, i) <= Reading(ticks, j)
  {
    ReadingsAreOrdered(FRESH, clock, ticks);
  }

  /** The worker's number counts the earlier calls with the same reading. */
  lemma {:induction false} NumberCountsCalls(clock: int, ticks: seq<Tick>, k: nat)
    requires 0 <= clock && Timely(FRESH, clock, ticks) && k <= |ticks|
    ensures var w := WorkerAt(FRESH, ticks, k);
      && w.timestamp == Reading(ticks, k - 1) && w.number <= k
      && Reading(ticks, k - 1 - w.number) == w.timestamp
      && (w.number < k ==> Reading(ticks, k - 2 - w.number) < w.timestamp)
    decreases k
  {
    if k > 0 {
      NumberCountsCalls(clock, ticks, k - 1);
      WorkerMoves(FRESH, ticks, k - 1);
      EarlierReading(clock, ticks, k - 2, k - 1);
    }
  }

  /** What the stamp of a call owes to the clock readings. */
  lemma StampOfReadings(clock: int, ticks: seq<Tick>, k: nat)
    requires 0 <= clock && Timely(FRESH, clock, ticks) && k < |ticks|
    ensures var s := Stamps(FRESH, ticks)[k];
      && (s.overflow <==> FullAt(ticks, k))
      && s.ms == MomentAt(ticks, k)
      && (s.number == 0 <==> Reading(ticks, k - 1) != ticks[k].now)
  {
    NumberCountsCalls(clock, ticks, k);
    WorkerMoves(FRESH, ticks, k);
    OverflowsIff(clock, ticks, k);
  }

  lemma OverflowsIff(clock: int, ticks: seq<Tick>, k: nat)
    requires 0 <= clock && Timely(FRESH, clock, ticks) && k < |ticks|
    ensures Overflows(WorkerAt(FRESH, ticks, k), ticks[k]) <==> FullAt(ticks, k)
  {
    NumberCountsCalls(clock, ticks, k);
    var w := WorkerAt(FRESH, ticks, k);
    if w.number >= NUMBER_MAX {
      EarlierReading(clock, ticks, k - 1 - w.number, k - NUMBER_MAX - 1);
      EarlierReading(clock, ticks, k - NUMBER_MAX - 1, k - 1);
    } else if k >= NUMBER_MAX {
      EarlierReading(clock, ticks, k - NUMBER_MAX - 1, k - 2 - w.number);
      EarlierReading(clock, ticks, k - 1, k);
    }
  }

  // ---- When all ids of a run are different ----------------------------------------------------------

  ghost predicate AllDifferent(workerID: int, stamps: seq<Stamp>) {
    forall i, j | 0 <= i < j < |stamps| :: IdOf(workerID, stamps[i]) != IdOf(workerID, stamps[j])
  }

  /** Some call comes in the very millisecond an overflowing call has just waited for. */
  ghost predicate CallAfterOverflow(ticks: seq<Tick>) {
    exists k :: 0 <= k < |ticks| - 1 && FullAt(ticks, k) && ticks[k + 1].now == ticks[k].spun
  }

  lemma {:induction false} RestartAfterOverflow(w: Worker, clock: int, ticks: seq<Tick>, k: nat)
    requires WorkerOk(w, clock) && Timely(w, clock, ticks) && k + 1 < |ticks| && Stamps(w, ticks)[k].overflow
    ensures Stamps(w, ticks)[k + 1].number == 0 && !Stamps(w, ticks)[k + 1].overflow
    decreases |ticks|
  {
    StepKeepsWorkerOk(w, clock, ticks[0]);
    if k > 0 {
      RestartAfterOverflow(Next(w, ticks[0]), StampOf(w, ticks[0]).ms, ticks[1..], k - 1);
    } else {
      var rest := ticks[1..];
      assert Stamps(w, ticks)[1] == Stamps(Next(w, ticks[0]), rest)[0] == StampOf(Next(w, ticks[0]), rest[0]);
    }
  }

  /** Two stamps in issue order share an id exactly when the first overflowed into the millisecond the
      second starts with, and the worker is odd. */
  lemma SameIdIff(workerID: int, a: Stamp, b: Stamp)
    requires ValidWorker(workerID) && Before(a, b)
    requires a.number <= NUMBER_MAX + 1 && (a.overflow <==> a.number == NUMBER_MAX + 1)
    requires b.number <= NUMBER_MAX + 1 && (b.overflow <==> b.number == NUMBER_MAX + 1)
    ensures IdOf(workerID, a) == IdOf(workerID, b) <==>
      workerID % 2 == 1 && a.overflow && a.ms == b.ms && b.number == 0
  {
    IdParts(workerID, a);
    IdParts(workerID, b);
  }

  /** All ids of a run are different if and only if the worker number is even or no call comes in the
      millisecond an overflowing call has just waited for. */
  lemma UniqueIff(workerID: int, clock: int, ticks: seq<Tick>)
    requires ValidWorker(workerID) && 0 <= clock && Timely(FRESH, clock, ticks)
    ensures AllDifferent(workerID, Stamps(FRESH, ticks))
      <==> workerID % 2 == 0 || !CallAfterOverflow(ticks)
  {
    var stamps := Stamps(FRESH, ticks);
    StampsInOrder(FRESH, clock, ticks);
    NumbersAreBounded(FRESH, clock, ticks);
    if workerID % 2 == 1 && CallAfterOverflow(ticks) {
      var k :| 0 <= k < |ticks| - 1 && FullAt(ticks, k) && ticks[k + 1].now == ticks[k].spun;
      NextInSameMoment(clock, ticks, k);
      RestartAfterOverflow(FRESH, clock, ticks, k);
      SameIdIff(workerID, stamps[k], stamps[k + 1]);
    } else {
      forall i, j | 0 <= i < j < |stamps| ensures IdOf(workerID, stamps[i]) != IdOf(workerID, stamps[j]) {
        SameIdIff(workerID, stamps[i], stamps[j]);
        if stamps[i].overflow && stamps[i].ms == stamps[j].ms {
          if i + 1 < j {
            assert Before(stamps[i], stamps[i + 1]) && Before(stamps[i + 1], stamps[j]);
          }
          NextInSameMoment(clock, ticks, i);
        }
      }
    }
  }

  lemma NextInSameMoment(clock: int, ticks: seq<Tick>, k: nat)
    requires 0 <= clock && Timely(FRESH, clock, ticks) && k + 1 < |ticks|
    ensures var stamps := Stamps(FRESH, ticks);
      && (stamps[k].overflow <==> FullAt(ticks, k))
      && (stamps[k].overflow ==> (stamps[k + 1].ms == stamps[k].ms <==> ticks[k + 1].now == ticks[k].spun))
  {
    StampOfReadings(clock, ticks, k);
    StampOfReadings(clock, ticks, k + 1);
    if Stamps(FRESH, ticks)[k].overflow {
      RestartAfterOverflow(FRESH, clock, ticks, k);
    }
  }

  // ---- When two workers collide -----------------------------------------------------------------------

  /** Stamps whose id ends in an odd worker's number and twelve zero bits. */
  predicate Low(workerID: int, s: Stamp) {
    s.overflow || (workerID % 2 == 1 && s.number == 0)
  }

  /** Workers share ids only within a pair (2k, 2k+1), and there exactly on such stamps. */
  lemma SameIdAcross(a: int, s: Stamp, b: int, t: Stamp)
    requires ValidWorker(a) && ValidWorker(b) && a != b
    requires s.number <= NUMBER_MAX + 1 && (s.overflow <==> s.number == NUMBER_MAX + 1)
    requires t.number <= NUMBER_MAX + 1 && (t.overflow <==> t.number == NUMBER_MAX + 1)
    ensures IdOf(a, s) == IdOf(b, t) <==> s.ms == t.ms && a / 2 == b / 2 && Low(a, s) && Low(b, t)
  {
    IdParts(a, s);
    IdParts(b, t);
  }

  /** The id as a regular one. */
  lemma IdParts(workerID: int, s: Stamp)
    requires ValidWorker(workerID)
    requires s.number <= NUMBER_MAX + 1 && (s.overflow <==> s.number == NUMBER_MAX + 1)
    ensures var id := IdOf(workerID, s);
      && id / TIME_UNIT == s.ms - EPOCH
      && id % TIME_UNIT / WORKER_UNIT == (if s.overflow then LowBitSet(workerID) else workerID)
      && id % WORKER_UNIT == (if s.overflow then 0 else s.number)
    ensures IdOf(workerID, s)
      == Packed(s.ms, if s.overflow then LowBitSet(workerID) else workerID, if s.overflow then 0 else s.number)
  {
    if s.overflow {
      OverflowId(workerID, s);
      PackedParts(s.ms, LowBitSet(workerID), 0);
    } else {
      PlainId(workerID, s);
      PackedParts(s.ms, workerID, s.number);
    }
  }

  /** Call `k` overflows, or it is an odd worker's first in its millisecond. */
  predicate LowAt(workerID: int, ticks: seq<Tick>, k: nat)
    requires k < |ticks|
  {
    FullAt(ticks, k) || (workerID % 2 == 1 && Reading(ticks, k - 1) != ticks[k].now)
  }

  ghost predicate Meet(a: int, ticksA: seq<Tick>, i: nat, b: int, ticksB: seq<Tick>, j: nat)
    requires i < |ticksA| && j < |ticksB|
  {
    MomentAt(ticksA, i) == MomentAt(ticksB, j) && LowAt(a, ticksA, i) && LowAt(b, ticksB, j)
  }

  ghost predicate Disjoint(a: int, stampsA: seq<Stamp>, b: int, stampsB: seq<Stamp>) {
    forall i, j | 0 <= i < |stampsA| && 0 <= j < |stampsB| :: IdOf(a, stampsA[i]) != IdOf(b, stampsB[j])
  }

  /** Two workers never share an id if and only if they are not the two of a pair (2k, 2k+1), or no
      overflowing call of the even one waits for a millisecond that the odd one begins, or waits for
      too. */
  lemma DisjointIff(a: int, clockA: int, ticksA: seq<Tick>, b: int, clockB: int, ticksB: seq<Tick>)
    requires ValidWorker(a) && ValidWorker(b) && a != b
    requires 0 <= clockA && Timely(FRESH, clockA, ticksA) && 0 <= clockB && Timely(FRESH, clockB, ticksB)
    ensures Disjoint(a, Stamps(FRESH, ticksA), b, Stamps(FRESH, ticksB))
      <==> a / 2 != b / 2 || !exists i, j :: 0 <= i < |ticksA| && 0 <= j < |ticksB| && Meet(a, ticksA, i, b, ticksB, j)
  {
    forall i, j | 0 <= i < |ticksA| && 0 <= j < |ticksB|
      ensures IdOf(a, Stamps(FRESH, ticksA)[i]) == IdOf(b, Stamps(FRESH, ticksB)[j])
        <==> a / 2 == b / 2 && Meet(a, ticksA, i, b, ticksB, j)
    {
      SameIdAt(a, clockA, ticksA, i, b, clockB, ticksB, j);
    }
  }

  lemma SameIdAt(a: int, clockA: int, ticksA: seq<Tick>, i: nat, b: int, clockB: int, ticksB: seq<Tick>, j: nat)
    requires ValidWorker(a) && ValidWorker(b) && a != b && i < |ticksA| && j < |ticksB|
    requires 0 <= clockA && Timely(FRESH, clockA, ticksA) && 0 <= clockB && Timely(FRESH, clockB, ticksB)
    ensures IdOf(a, Stamps(FRESH, ticksA)[i]) == IdOf(b, Stamps(FRESH, ticksB)[j])
      <==> a / 2 == b / 2 && Meet(a, ticksA, i, b, ticksB, j)
  {
    NumbersAreBounded(FRESH, clockA, ticksA);
    NumbersAreBounded(FRESH, clockB, ticksB);
    StampOfReadings(clockA, ticksA, i);
    StampOfReadings(clockB, ticksB, j);
    SameIdAcross(a, Stamps(FRESH, ticksA)[i], b, Stamps(FRESH, ticksB)[j]);
  }

  // ---- Runs that repeat ids -----------------------------------------------------------------------------

  /** `k` more calls in millisecond t, then one in the next. */
  function Burst(t: int, k: nat): seq<Tick> {
    if k == 0 then [Tick(t + 1, t + 2)] else [Tick(t, t + 1)] + Burst(t, k - 1)
  }

  lemma {:induction false} BurstOverflows(t: int, n: nat, k: nat)
    requires k >= 1 && n + k == NUMBER_MAX + 1
    ensures |Burst(t, k)| == k + 1 && Timely(Worker(t, n), t, Burst(t, k))
    ensures var stamps := Stamps(Worker(t, n), Burst(t, k));
      stamps[k - 1] == Stamp(t + 1, NUMBER_MAX + 1, true) && stamps[k] == Stamp(t + 1, 0, false)
    decreases k
  {
    var ticks := Burst(t, k);
    assert ticks[1..] == Burst(t, k - 1);
    if k > 1 {
      BurstOverflows(t, n + 1, k - 1);
    } else {
      assert Burst(t, 0)[1..] == [];
      assert Stamps(Worker(t, n + 1), Burst(t, 0)) == [Stamp(t + 1, 0, false)];
    }
  }

  /** Odd workers do repeat ids: 4097 calls in one millisecond and one in the next yield the same id
      twice. */
  lemma OddWorkersCanRepeat(workerID: int, t: int)
    requires ValidWorker(workerID) && workerID % 2 == 1 && t > 0
    ensures Timely(FRESH, 0, FullMillisecond(t)) && !AllDifferent(workerID, Stamps(FRESH, FullMillisecond(t)))
  {
    FullMillisecondOverflows(t);
    var stamps := Stamps(FRESH, FullMillisecond(t));
    SameIdIff(workerID, stamps[NUMBER_MAX + 1], stamps[NUMBER_MAX + 2]);
  }

  /** An even worker's overflow takes the first id its odd neighbour has in the next millisecond. */
  lemma NeighboursCanCollide(workerID: int, t: int)
    requires ValidWorker(workerID) && workerID % 2 == 0 && t > 0
    ensures Timely(FRESH, 0, FullMillisecond(t)) && Timely(FRESH, 0, [Tick(t + 1, t + 2)])
    ensures ValidWorker(workerID + 1)
    ensures !Disjoint(workerID, Stamps(FRESH, FullMillisecond(t)), workerID + 1, Stamps(FRESH, [Tick(t + 1, t + 2)]))
  {
    FullMillisecondOverflows(t);
    var stamps, other := Stamps(FRESH, FullMillisecond(t)), Stamps(FRESH, [Tick(t + 1, t + 2)]);
    assert other[0] == Stamp(t + 1, 0, false);
    SameIdAcross(workerID, stamps[NUMBER_MAX + 1], workerID + 1, other[0]);
  }

  function FullMillisecond(t: int): seq<Tick> {
    [Tick(t, t + 1)] + Burst(t, NUMBER_MAX + 1)
  }

  lemma FullMillisecondOverflows(t: int)
    requires t > 0
    ensures Timely(FRESH, 0, FullMillisecond(t)) && |FullMillisecond(t)| == NUMBER_MAX + 3
    ensures var stamps := Stamps(FRESH, FullMillisecond(t));
      && stamps[NUMBER_MAX + 1] == Stamp(t + 1, NUMBER_MAX + 1, true)
      && stamps[NUMBER_MAX + 2] == Stamp(t + 1, 0, false)
  {
    var burst := Burst(t, NUMBER_MAX + 1);
    var ticks := [Tick(t, t + 1)] + burst;
    BurstOverflows(t, 0, NUMBER_MAX + 1);
    assert ticks[1..] == burst;
    assert Stamps(FRESH, ticks) == [Stamp(t, 0, false)] + Stamps(Worker(t, 0), burst);
  }

  // ---- The object ---------------------------------------------------------------------------------

  class UuidWorker {
    const workerID: int
    var timestamp: int
    var number: nat

    constructor (workerID: int)
      requires ValidWorker(workerID)
      ensures this.workerID == workerID && State() == FRESH
    {
      this.workerID := workerID;
      timestamp, number := 0, 0;
    }

    function State(): Worker
      reads this
    {
      Worker(timestamp, number)
    }

    /** `clock` holds the successive clock readings; `used` says how many the call took. */
    method Get(clock: seq<int>) returns (id: int, used: nat)
      requires clock != []
      requires Overflows(State(), Tick(clock[0], 0)) ==> exists k :: 0 <= k < |clock| && clock[k] > timestamp
      modifies this
      ensures 0 < used <= |clock|
      ensures var t := Tick(clock[0], clock[used - 1]);
        && (Overflows(old(State()), t) ==>
              t.spun > old(timestamp) && forall k | 0 <= k < used - 1 :: clock[k] <= old(timestamp))
        && (!Overflows(old(State()), t) ==> used == 1)
        && State() == Next(old(State()), t)
        && id == IdOf(workerID, StampOf(old(State()), t))
    {
      var now := clock[0];
      used := 1;
      if timestamp == now {
        number := number + 1;
        if number > NUMBER_MAX {
          while now <= timestamp
            invariant 0 < used <= |clock| && now == clock[used - 1]
            invariant forall k | 0 <= k < used - 1 :: clock[k] <= timestamp
            decreases |clock| - used
          {
            assert used < |clock| by {
              var k :| 0 <= k < |clock| && clock[k] > timestamp;
              assert k >= used;
            }
            now := clock[used];
            used := used + 1;
          }
        }
      } else {
        number := 0;
        timestamp := now;
      }
      id := BitOr(BitOr((now - EPOCH) * TIME_UNIT, workerID * WORKER_UNIT), number);
    }
  }

  /** A worker is created only for numbers 0 to 1023. */
  method NewUuidWorker(workerID: int) returns (r: Result<UuidWorker>)
    ensures r.Ok? <==> 0 <= workerID <= 1023
    ensures r.Ok? ==> fresh(r.value) && r.value.workerID == workerID && r.value.State() == FRESH
  {
    if workerID < 0 || workerID > WORKER_MAX {
      return Err("worker ID excess of quantity");
    }
    var w := new UuidWorker(workerID);
    r := Ok(w);
  }
}
