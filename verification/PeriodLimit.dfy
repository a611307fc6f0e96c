/** The local side of the period limiter: one counter per key, opened by the first request and
    valid for one period, plus a clean-up pass that drops counters past their time.
    Times are integer nanoseconds; `window` is the period in nanoseconds. */
module PeriodLimit {
  import opened Arithmetic
  import opened Common

  datatype Counter = Counter(count: int, expireAt: int)
  type Counters = map<string, Counter>

  const NANOS_PER_SECOND := 1_000_000_000

  /** The counter of `key` is missing or no longer valid at `now`. */
  predicate Stale(m: Counters, key: string, now: int) {
    key !in m || now > m[key].expireAt
  }

  function Taken(m: Counters, window: int, key: string, now: int): Counters {
    if Stale(m, key, now) then m[key := Counter(1, now + window)]
    else m[key := Counter(m[key].count + 1, m[key].expireAt)]
  }

  predicate Admits(m: Counters, quota: int, key: string, now: int) {
    Stale(m, key, now) || m[key].count + 1 <= quota
  }

  function Cleaned(m: Counters, now: int): Counters {
    map k | k in m && now <= m[k].expireAt :: m[k]
  }

  // ---- Runs ------------------------------------------------------------------------

  datatype Event = Take(key: string, now: int) | Cleanup(now: int)

  function Step(m: Counters, window: int, e: Event): Counters {
    match e
    case Take(key, now) => Taken(m, window, key, now)
    case Cleanup(now) => Cleaned(m, now)
  }

  /** The answers given to the takes of a run, in order. */
  function Answers(m: Counters, window: int, quota: int, events: seq<Event>): seq<bool>
    decreases |events|
  {
    if events == [] then []
    else
      var e, rest := events[0], Answers(Step(m, window, events[0]), window, quota, events[1..]);
      if e.Take? then [Admits(m, quota, e.key, e.now)] + rest else rest
  }

  function Takes(events: seq<Event>): seq<Event> {
    if events == [] then []
    else if events[0].Take? then [events[0]] + Takes(events[1..]) else Takes(events[1..])
  }

  /** No later than the lock of event `e` is taken, if `from` is no later than the lock before. */
  function Later(from: int, e: Event): int {
    if e.Take? then e.now else Max(from, e.now)
  }

  /** Events in the order in which they get the lock, on a clock that never goes back. A take reads the
      clock under the lock; a clean-up pass reads it before, so its reading may be stale. */
  predicate Ordered(from: int, events: seq<Event>)
    decreases |events|
  {
    events == [] ||
      ((events[0].Take? ==> from <= events[0].now) && Ordered(Later(from, events[0]), events[1..]))
  }

  // ---- Clean-up is unobservable -------------------------------------------------------

  /** From `now` on the two tables cannot be told apart: a key is stale in both, or they agree. */
  ghost predicate Alike(m: Counters, m': Counters, now: int) {
    forall k :: (Stale(m, k, now) && Stale(m', k, now)) || (k in m && k in m' && m[k] == m'[k])
  }

  lemma AlikeStep(m: Counters, m': Counters, window: int, quota: int, from: int, e: Event)
    requires Alike(m, m', from) && (e.Take? ==> from <= e.now)
    ensures e.Take? ==> Admits(m, quota, e.key, e.now) == Admits(m', quota, e.key, e.now)
    ensures e.Take? ==> Alike(Step(m, window, e), Step(m', window, e), Later(from, e))
    ensures e.Cleanup? ==> Alike(Step(m, window, e), m', Later(from, e))
  {
    var now := Later(from, e);
    forall k
      ensures (Stale(m, k, now) && Stale(m', k, now)) || (k in m && k in m' && m[k] == m'[k])
    {
      assert (Stale(m, k, from) && Stale(m', k, from)) || (k in m && k in m' && m[k] == m'[k]);
    }
    if e.Take? {
      var n, n' := Step(m, window, e), Step(m', window, e);
      forall k
        ensures (Stale(n, k, e.now) && Stale(n', k, e.now)) || (k in n && k in n' && n[k] == n'[k])
      {
        if k != e.key {
          assert Stale(n, k, e.now) == Stale(m, k, e.now) && Stale(n', k, e.now) == Stale(m', k, e.now);
        }
      }
    } else {
      var n := Step(m, window, e);
      forall k
        ensures (Stale(n, k, now) && Stale(m', k, now)) || (k in n && k in m' && n[k] == m'[k])
      {
        assert Stale(n, k, now) == Stale(m, k, now);
      }
    }
  }

  lemma {:induction false} AlikeAnswers(m: Counters, m': Counters, window: int, quota: int, from: int,
                                        events: seq<Event>)
    requires Alike(m, m', from) && Ordered(from, events)
    ensures Answers(m, window, quota, events) == Answers(m', window, quota, Takes(events))
    decreases |events|
  {
    if events != [] {
      var e := events[0];
      AlikeStep(m, m', window, quota, from, e);
      if e.Take? {
        AlikeAnswers(Step(m, window, e), Step(m', window, e), window, quota, e.now, events[1..]);
        assert Takes(events)[1..] == Takes(events[1..]);
      } else {
        AlikeAnswers(Step(m, window, e), m', window, quota, Later(from, e), events[1..]);
      }
    }
  }

  /** Clean-up passes, wherever they happen and however stale their readings, never change an answer. */
  lemma CleanupIsInvisible(m: Counters, window: int, quota: int, from: int, events: seq<Event>)
    requires Ordered(from, events)
    ensures Answers(m, window, quota, events) == Answers(m, window, quota, Takes(events))
  {
    AlikeAnswers(m, m, window, quota, from, events);
  }

  // ---- Keys do not affect each other -----------------------------------------------------

  /** The answers to the takes of one key, picked out of a run over all keys. */
  function AnswersFor(m: Counters, window: int, quota: int, events: seq<Event>, key: string): seq<bool>
    decreases |events|
  {
    if events == [] then []
    else
      var e, rest := events[0], AnswersFor(Step(m, window, events[0]), window, quota, events[1..], key);
      if e.Take? && e.key == key then [Admits(m, quota, key, e.now)] + rest else rest
  }

  /** The times at which `key` was asked for. */
  function TimesOf(events: seq<Event>, key: string): seq<int> {
    if events == [] then []
    else if events[0].Take? && events[0].key == key then [events[0].now] + TimesOf(events[1..], key)
    else TimesOf(events[1..], key)
  }

  /** One key on its own. */
  predicate AloneAdmits(c: Option<Counter>, quota: int, now: int) {
    c.None? || now > c.value.expireAt || c.value.count + 1 <= quota
  }

  function AloneStep(c: Option<Counter>, window: int, now: int): Counter {
    if c.None? || now > c.value.expireAt then Counter(1, now + window)
    else Counter(c.value.count + 1, c.value.expireAt)
  }

  function AloneAnswers(c: Option<Counter>, window: int, quota: int, times: seq<int>): seq<bool>
    decreases |times|
  {
    if times == [] then []
    else [AloneAdmits(c, quota, times[0])]
         + AloneAnswers(Some(AloneStep(c, window, times[0])), window, quota, times[1..])
  }

  ghost predicate AlikeAlone(m: Counters, key: string, c: Option<Counter>, now: int) {
    || (Stale(m, key, now) && (c.None? || now > c.value.expireAt))
    || (key in m && c == Some(m[key]))
  }

  /** Whatever happens to other keys, and whenever the table is cleaned, the takes of `key` are
      answered as if that key were alone in a table that is never cleaned. */
  lemma {:induction false} KeysAreIndependent(m: Counters, window: int, quota: int, from: int,
                                              events: seq<Event>, key: string, c: Option<Counter>)
    requires Ordered(from, events) && AlikeAlone(m, key, c, from)
    ensures AnswersFor(m, window, quota, events, key) == AloneAnswers(c, window, quota, TimesOf(events, key))
    decreases |events|
  {
    if events != [] {
      var e := events[0];
      if e.Take? && e.key == key {
        var next := AloneStep(c, window, e.now);
        KeysAreIndependent(Step(m, window, e), window, quota, e.now, events[1..], key, Some(next));
        assert TimesOf(events, key)[1..] == TimesOf(events[1..], key);
      } else {
        KeysAreIndependent(Step(m, window, e), window, quota, Later(from, e), events[1..], key, c);
      }
    }
  }

  // ---- The bound -----------------------------------------------------------------------

  predicate OrderedTimes(from: int, times: seq<int>)
    decreases |times|
  {
    times == [] || (from <= times[0] && OrderedTimes(times[0], times[1..]))
  }

  lemma {:induction false} TimesAreOrdered(from: int, events: seq<Event>, key: string)
    requires Ordered(from, events)
    ensures OrderedTimes(from, TimesOf(events, key))
    decreases |events|
  {
    if events != [] {
      TimesAreOrdered(Later(from, events[0]), events[1..], key);
      var times := TimesOf(events[1..], key);
      if events[0].Take? && events[0].key == key {
        assert TimesOf(events, key)[1..] == times;
      } else if times != [] {
        assert from <= times[0];
      }
    }
  }

  /** Requests admitted at times in the closed interval [lo, hi]. */
  function AdmittedIn(times: seq<int>, answers: seq<bool>, lo: int, hi: int): nat
    requires |times| == |answers|
  {
    if times == [] then 0
    else (if answers[0] && lo <= times[0] <= hi then 1 else 0) + AdmittedIn(times[1..], answers[1..], lo, hi)
  }

  /** Requests admitted in [lo, hi] when a key on its own is asked for at these times. */
  function AloneAdmitted(c: Option<Counter>, window: int, quota: int, times: seq<int>, lo: int, hi: int): nat
    decreases |times|
  {
    if times == [] then 0
    else
      (if AloneAdmits(c, quota, times[0]) && lo <= times[0] <= hi then 1 else 0)
        + AloneAdmitted(Some(AloneStep(c, window, times[0])), window, quota, times[1..], lo, hi)
  }

  lemma {:induction false} AloneCounts(c: Option<Counter>, window: int, quota: int, times: seq<int>, lo: int, hi: int)
    ensures |AloneAnswers(c, window, quota, times)| == |times|
    ensures AdmittedIn(times, AloneAnswers(c, window, quota, times), lo, hi)
      == AloneAdmitted(c, window, quota, times, lo, hi)
    decreases |times|
  {
    if times != [] {
      var next := Some(AloneStep(c, window, times[0]));
      AloneCounts(next, window, quota, times[1..], lo, hi);
      assert AloneAnswers(c, window, quota, times)[1..] == AloneAnswers(next, window, quota, times[1..]);
    }
  }

  /** How many windows of length `window` can still open in (last, hi]: consecutive openings are
      more than `window` apart. */
  function OpeningsLeft(window: nat, last: int, hi: int): nat {
    if hi <= last then 0 else
      assert (hi - last + window) / (window + 1) >= 0 by { DivBounds(hi - last + window, window + 1); }
      (hi - last + window) / (window + 1)
  }

  lemma OpeningUsesOne(window: nat, last: int, now: int, hi: int)
    requires last < now <= hi
    ensures OpeningsLeft(window, now + window, hi) + 1 <= OpeningsLeft(window, last, hi)
  {
    var d := window + 1;
    DivBounds(hi - last + window, d);
    var q := (hi - last + window) / d;
    if hi <= now + window {
      if q <= 0 { MulMono(q, 0, d); }
    } else {
      DivBounds(hi - (now + window) + window, d);
      var q' := (hi - (now + window) + window) / d;
      if q <= q' {
        MulMono(q, q', d);
      }
    }
  }

  lemma OpeningsMono(window: nat, a: int, b: int, hi: int)
    requires a <= b
    ensures OpeningsLeft(window, b, hi) <= OpeningsLeft(window, a, hi)
  {
    var d := window + 1;
    if b < hi {
      DivBounds(hi - a + window, d);
      DivBounds(hi - b + window, d);
      var qa, qb := (hi - a + window) / d, (hi - b + window) / d;
      if qa < qb {
        MulMono(qa + 1, qb, d);
        MulAdd(qa, 1, d);
      }
    }
  }

  /** What the state can still admit up to `hi`: the rest of the open window and all of every
      window yet to open. */
  function Potential(window: nat, quota: nat, c: Option<Counter>, lo: int, hi: int): nat {
    if c.None? || c.value.expireAt < lo then quota * OpeningsLeft(window, lo - 1, hi)
    else (if quota > c.value.count then quota - c.value.count else 0)
         + quota * OpeningsLeft(window, c.value.expireAt, hi)
  }

  lemma PotentialPaysForOneStep(window: nat, quota: nat, c: Option<Counter>, lo: int, hi: int, now: int)
    requires quota >= 1 && lo <= now <= hi
    ensures Potential(window, quota, c, lo, hi)
      >= Potential(window, quota, Some(AloneStep(c, window, now)), lo, hi)
         + if AloneAdmits(c, quota, now) then 1 else 0
  {
    if c.None? || now > c.value.expireAt {
      var last := if c.None? || c.value.expireAt < lo then lo - 1 else c.value.expireAt;
      OpeningUsesOne(window, last, now, hi);
      var after := OpeningsLeft(window, now + window, hi);
      MulMono(after + 1, OpeningsLeft(window, last, hi), quota);
      MulAdd(after, 1, quota);
      assert quota * OpeningsLeft(window, last, hi) >= quota * after + quota;
    }
  }

  lemma {:induction false} AdmittedWithinPotential(window: nat, quota: nat, c: Option<Counter>,
                                                   times: seq<int>, from: int, lo: int, hi: int)
    requires quota >= 1 && lo <= from && OrderedTimes(from, times)
    ensures AloneAdmitted(c, window, quota, times, lo, hi) <= Potential(window, quota, c, lo, hi)
    decreases |times|
  {
    if times != [] {
      var next := Some(AloneStep(c, window, times[0]));
      if times[0] <= hi {
        AdmittedWithinPotential(window, quota, next, times[1..], times[0], lo, hi);
        PotentialPaysForOneStep(window, quota, c, lo, hi, times[0]);
      } else {
        NothingAfter(window, quota, next, times[1..], times[0], lo, hi);
      }
    }
  }

  lemma {:induction false} NothingAfter(window: nat, quota: nat, c: Option<Counter>, times: seq<int>, from: int,
                                        lo: int, hi: int)
    requires hi < from && OrderedTimes(from, times)
    ensures AloneAdmitted(c, window, quota, times, lo, hi) == 0
    decreases |times|
  {
    if times != [] {
      NothingAfter(window, quota, Some(AloneStep(c, window, times[0])), times[1..], times[0], lo, hi);
    }
  }

  /** The most a key with quota `quota` can be admitted in a closed interval of the given length: a full
      window for each window length begun, and - unless the interval is a whole number of window lengths -
      what is left of a window opened just before. */
  function Most(window: nat, quota: nat, length: nat): int {
    quota * (length / (window + 1) + 1) + if length % (window + 1) == 0 then 0 else quota - 1
  }

  lemma OpeningsFromStart(window: nat, lo: int, hi: int)
    requires lo <= hi
    ensures OpeningsLeft(window, lo - 1, hi) == (hi - lo) / (window + 1) + 1
  {
    var d, n := window + 1, (hi - lo) / (window + 1);
    MulAdd(n, 1, d);
    DivUnique(hi - lo + d, n + 1, (hi - lo) % d, d);
  }

  lemma OpeningsFromInside(window: nat, lo: int, hi: int)
    requires lo <= hi
    ensures OpeningsLeft(window, lo, hi)
      == (hi - lo) / (window + 1) + if (hi - lo) % (window + 1) == 0 then 0 else 1
  {
    var d, n, r := window + 1, (hi - lo) / (window + 1), (hi - lo) % (window + 1);
    if lo == hi {
      DivUnique(0, 0, 0, d);
    } else if r == 0 {
      DivUnique(hi - lo + window, n, window, d);
    } else {
      MulAdd(n, 1, d);
      DivUnique(hi - lo + window, n + 1, r - 1, d);
    }
  }

  lemma PotentialLimit(window: nat, quota: nat, c: Option<Counter>, lo: int, hi: int)
    requires quota >= 1 && lo <= hi && (c.Some? ==> c.value.count >= 1)
    ensures Potential(window, quota, c, lo, hi) <= Most(window, quota, hi - lo)
  {
    var n := (hi - lo) / (window + 1);
    MulAdd(n, 1, quota);
    if c.None? || c.value.expireAt < lo {
      OpeningsFromStart(window, lo, hi);
    } else {
      OpeningsMono(window, lo, c.value.expireAt, hi);
      OpeningsFromInside(window, lo, hi);
      MulMono(OpeningsLeft(window, c.value.expireAt, hi), OpeningsLeft(window, lo, hi), quota);
    }
  }

  lemma {:induction false} AdmittedFromAnywhere(window: nat, quota: nat, c: Option<Counter>,
                                                times: seq<int>, from: int, lo: int, hi: int)
    requires quota >= 1 && lo <= hi && OrderedTimes(from, times) && (c.Some? ==> c.value.count >= 1)
    ensures AloneAdmitted(c, window, quota, times, lo, hi) <= Most(window, quota, hi - lo)
    decreases |times|
  {
    if times != [] && times[0] < lo {
      AdmittedFromAnywhere(window, quota, Some(AloneStep(c, window, times[0])), times[1..], times[0], lo, hi);
    } else {
      AdmittedWithinPotential(window, quota, c, times, if times == [] then lo else times[0], lo, hi);
      PotentialLimit(window, quota, c, lo, hi);
    }
  }

  /** The request that opens a window is admitted whatever the quota. */
  function AtLeastOne(quota: int): nat {
    if quota < 1 then 1 else quota
  }

  lemma {:induction false} LowQuotaIsOne(c: Option<Counter>, window: int, quota: int, times: seq<int>)
    requires c.Some? ==> c.value.count >= 1
    ensures AloneAnswers(c, window, quota, times) == AloneAnswers(c, window, AtLeastOne(quota), times)
    decreases |times|
  {
    if times != [] {
      LowQuotaIsOne(Some(AloneStep(c, window, times[0])), window, quota, times[1..]);
    }
  }

  /** In any closed interval [lo, hi], with clean-up passes and other keys anywhere, a key is admitted at
      most `Most` times. A quota below one acts as one. */
  lemma PeriodBound(period: nat, quota: int, from: int, events: seq<Event>, key: string, lo: int, hi: int)
    requires period >= 1 && lo <= hi && Ordered(from, events)
    ensures var window := period * 1_000_000_000;
      var answers := AnswersFor(map[], window, quota, events, key);
      && |TimesOf(events, key)| == |answers|
      && AdmittedIn(TimesOf(events, key), answers, lo, hi) <= Most(window, AtLeastOne(quota), hi - lo)
  {
    var window := period * NANOS_PER_SECOND;
    KeysAreIndependent(map[], window, quota, from, events, key, None);
    TimesAreOrdered(from, events, key);
    LowQuotaIsOne(None, window, quota, TimesOf(events, key));
    AdmittedFromAnywhere(window, AtLeastOne(quota), None, TimesOf(events, key), from, lo, hi);
    AloneCounts(None, window, AtLeastOne(quota), TimesOf(events, key), lo, hi);
  }

  /** ceil(a / b) */
  function CeilDiv(a: nat, b: nat): nat
    requires b > 0
  {
    assert (a + b - 1) / b >= 0 by { DivBounds(a + b - 1, b); }
    (a + b - 1) / b
  }

  /** It is never more than a quota for each period begun and one more. */
  lemma MostWithinQuotas(window: nat, quota: nat, length: nat)
    requires window >= 1
    ensures Most(window, quota, length) <= quota * (CeilDiv(length, window) + 1)
  {
    var n := length / (window + 1);
    var begun := n + if length % (window + 1) == 0 then 0 else 1;
    BegunWithin(length, window);
    MulMono(begun + 1, CeilDiv(length, window) + 1, quota);
    MulAdd(n + 1, 1, quota);
  }

  lemma BegunWithin(length: nat, window: nat)
    requires window >= 1
    ensures length / (window + 1) + (if length % (window + 1) == 0 then 0 else 1) <= CeilDiv(length, window)
  {
    var n, r := length / (window + 1), length % (window + 1);
    DivBounds(length, window + 1);
    MulAdd(window, 1, n);
    MulAdd(n, 1, window);
    QuotientAtLeast(length + window - 1, if r == 0 then n else n + 1, window);
  }

  lemma QuotientAtLeast(a: int, q: int, d: int)
    requires d > 0 && q * d <= a
    ensures q <= a / d
  {
    DivBounds(a, d);
    if a / d < q {
      MulMono(a / d + 1, q, d);
      MulAdd(a / d, 1, d);
    }
  }

  // ---- The bound is reached ---------------------------------------------------------------

  function Repeated(t: int, n: nat): seq<int> {
    seq(n, _ => t)
  }

  /** `n` windows in a row, each used up in the moment it opens. */
  function Full(t: int, window: nat, quota: nat, n: nat): seq<int>
    requires quota >= 1
    decreases n
  {
    if n == 0 then [] else Repeated(t, quota) + Full(t + window + 1, window, quota, n - 1)
  }

  lemma RepeatedOnce(t: int, n: nat, rest: seq<int>)
    requires n > 0
    ensures var times := Repeated(t, n) + rest;
      times[0] == t && times[1..] == Repeated(t, n - 1) + rest
  {
  }

  /** Requests at one moment inside an open window with room for them are all admitted. */
  lemma {:induction false} RoomForAll(window: int, quota: int, c: Counter, t: int, n: nat, rest: seq<int>, lo: int, hi: int)
    requires t <= c.expireAt && c.count + n <= quota && lo <= t <= hi
    ensures AloneAdmitted(Some(c), window, quota, Repeated(t, n) + rest, lo, hi)
      == n + AloneAdmitted(Some(c.(count := c.count + n)), window, quota, rest, lo, hi)
    decreases n
  {
    if n == 0 {
      assert Repeated(t, n) + rest == rest;
    } else {
      RepeatedOnce(t, n, rest);
      RoomForAll(window, quota, c.(count := c.count + 1), t, n - 1, rest, lo, hi);
    }
  }

  /** Every request of such a sequence is admitted. */
  lemma {:induction false} FullIsAdmitted(c: Option<Counter>, t: int, window: nat, quota: nat, n: nat, lo: int, hi: int)
    requires quota >= 1 && (c.None? || c.value.expireAt < t)
    requires lo <= t && (n > 0 ==> t + (n - 1) * (window + 1) <= hi)
    ensures AloneAdmitted(c, window, quota, Full(t, window, quota, n), lo, hi) == n * quota
    decreases n
  {
    if n > 0 {
      var rest, next := Full(t + window + 1, window, quota, n - 1), Counter(quota, t + window);
      MulMono(0, n - 1, window + 1);
      MulAdd(n - 2, 1, window + 1);
      FullIsAdmitted(Some(next), t + window + 1, window, quota, n - 1, lo, hi);
      RepeatedOnce(t, quota, rest);
      RoomForAll(window, quota, Counter(1, t + window), t, quota - 1, rest, lo, hi);
      MulAdd(n - 1, 1, quota);
    }
  }

  lemma {:induction false} OrderedRepeated(t: int, n: nat, from: int, rest: seq<int>)
    requires from <= t && OrderedTimes(t, rest)
    ensures OrderedTimes(from, Repeated(t, n) + rest)
    decreases n
  {
    if n == 0 {
      assert Repeated(t, n) + rest == rest;
    } else {
      RepeatedOnce(t, n, rest);
      OrderedRepeated(t, n - 1, t, rest);
    }
  }

  lemma {:induction false} FullIsOrdered(t: int, window: nat, quota: nat, n: nat, from: int)
    requires quota >= 1 && from <= t
    ensures OrderedTimes(from, Full(t, window, quota, n))
    decreases n
  {
    if n > 0 {
      FullIsOrdered(t + window + 1, window, quota, n - 1, t);
      OrderedRepeated(t, quota, from, Full(t + window + 1, window, quota, n - 1));
    }
  }

  /** A window opened exactly one window length before `lo`, used up at `lo`, then `n` full ones. */
  function LateStart(window: nat, quota: nat, lo: int, n: nat): seq<int>
    requires quota >= 1
  {
    [lo - window] + (Repeated(lo, quota - 1) + Full(lo + 1, window, quota, n))
  }

  lemma LateStartIsOrdered(window: nat, quota: nat, lo: int, n: nat)
    requires quota >= 1
    ensures OrderedTimes(lo - window, LateStart(window, quota, lo, n))
  {
    var rest := Full(lo + 1, window, quota, n);
    FullIsOrdered(lo + 1, window, quota, n, lo);
    OrderedRepeated(lo, quota - 1, lo - window, rest);
    assert LateStart(window, quota, lo, n)[1..] == Repeated(lo, quota - 1) + rest;
  }

  lemma LateStartIsAdmitted(window: nat, quota: nat, lo: int, hi: int, n: nat)
    requires quota >= 1 && window >= 1 && lo + 1 + n * (window + 1) <= hi
    ensures AloneAdmitted(None, window, quota, LateStart(window, quota, lo, n + 1), lo, hi) == quota - 1 + (n + 1) * quota
  {
    var rest := Full(lo + 1, window, quota, n + 1);
    MulMono(0, n, window + 1);
    FullIsAdmitted(Some(Counter(quota, lo)), lo + 1, window, quota, n + 1, lo, hi);
    RoomForAll(window, quota, Counter(1, lo), lo, quota - 1, rest, lo, hi);
    assert LateStart(window, quota, lo, n + 1)[1..] == Repeated(lo, quota - 1) + rest;
  }

  /** The requests that make the most of [lo, hi]. */
  function Greedy(window: nat, quota: nat, lo: int, hi: int): seq<int>
    requires quota >= 1 && lo <= hi
  {
    assert (hi - lo) / (window + 1) >= 0 by { DivBounds(hi - lo, window + 1); }
    var n := (hi - lo) / (window + 1);
    if (hi - lo) % (window + 1) == 0 then Full(lo, window, quota, n + 1) else LateStart(window, quota, lo, n + 1)
  }

  lemma GreedyIsMost(window: nat, quota: nat, lo: int, hi: int)
    requires quota >= 1 && lo <= hi
    ensures OrderedTimes(lo - window, Greedy(window, quota, lo, hi))
    ensures AloneAdmitted(None, window, quota, Greedy(window, quota, lo, hi), lo, hi) == Most(window, quota, hi - lo)
  {
    var n, r := (hi - lo) / (window + 1), (hi - lo) % (window + 1);
    DivBounds(hi - lo, window + 1);
    assert hi - lo == n * (window + 1) + r;
    assert Most(window, quota, hi - lo) == (n + 1) * quota + if r == 0 then 0 else quota - 1;
    if r == 0 {
      FullIsOrdered(lo, window, quota, n + 1, lo - window);
      FullIsAdmitted(None, lo, window, quota, n + 1, lo, hi);
    } else {
      LateStartIsOrdered(window, quota, lo, n + 1);
      LateStartIsAdmitted(window, quota, lo, hi, n);
    }
  }

  function TakesAt(key: string, times: seq<int>): seq<Event> {
    if times == [] then [] else [Take(key, times[0])] + TakesAt(key, times[1..])
  }

  lemma {:induction false} TakesAtTimes(key: string, times: seq<int>, from: int)
    requires OrderedTimes(from, times)
    ensures TimesOf(TakesAt(key, times), key) == times && Ordered(from, TakesAt(key, times))
    decreases |times|
  {
    if times != [] {
      TakesAtTimes(key, times[1..], times[0]);
      assert TakesAt(key, times)[1..] == TakesAt(key, times[1..]);
    }
  }

  /** For every period, quota and interval there is a run in which a key is admitted that often. */
  lemma MostIsReached(period: nat, quota: int, key: string, lo: int, hi: int) returns (events: seq<Event>)
    requires period >= 1 && lo <= hi
    ensures var window := period * 1_000_000_000;
      var answers := AnswersFor(map[], window, quota, events, key);
      && Ordered(lo - window, events)
      && |TimesOf(events, key)| == |answers|
      && AdmittedIn(TimesOf(events, key), answers, lo, hi) == Most(window, AtLeastOne(quota), hi - lo)
  {
    var window, q := period * NANOS_PER_SECOND, AtLeastOne(quota);
    var times := Greedy(window, q, lo, hi);
    GreedyIsMost(window, q, lo, hi);
    AloneCounts(None, window, q, times, lo, hi);
    LowQuotaIsOne(None, window, quota, times);
    TakesAtTimes(key, times, lo - window);
    events := TakesAt(key, times);
    KeysAreIndependent(map[], window, quota, lo - window, events, key, None);
  }

  // ---- It is not a sliding window -------------------------------------------------------

  /** No more than `quota` of the requests made in [lo, hi] are admitted. */
  ghost predicate WithinQuota(window: nat, quota: int, times: seq<int>, lo: int, hi: int) {
    AloneCounts(None, window, quota, times, lo, hi);
    AdmittedIn(times, AloneAnswers(None, window, quota, times), lo, hi) <= quota
  }

  /** What a sliding window would promise: no interval of one period sees more than `quota`. */
  ghost predicate Slides(window: nat, quota: int) {
    forall times, from, lo, hi | OrderedTimes(from, times) && lo <= hi <= lo + window ::
      WithinQuota(window, quota, times, lo, hi)
  }

  /** Inside one window length the most is one full window, and all but one request of another. */
  lemma MostInsideOneWindow(window: nat, quota: nat, length: nat)
    requires length <= window
    ensures Most(window, quota, length) == if length == 0 then quota else 2 * quota - 1
  {
    DivUnique(length, 0, length, window + 1);
  }

  /** The limiter slides exactly when the quota is one. */
  lemma SlidesIff(window: nat, quota: int)
    requires window >= 1
    ensures Slides(window, quota) <==> quota == 1
  {
    if quota == 1 {
      forall times, from, lo, hi | OrderedTimes(from, times) && lo <= hi <= lo + window
        ensures WithinQuota(window, quota, times, lo, hi)
      {
        AdmittedFromAnywhere(window, 1, None, times, from, lo, hi);
        AloneCounts(None, window, 1, times, lo, hi);
        MostInsideOneWindow(window, 1, hi - lo);
      }
    } else {
      var q := AtLeastOne(quota);
      var times := Greedy(window, q, 0, 1);
      GreedyIsMost(window, q, 0, 1);
      AloneCounts(None, window, q, times, 0, 1);
      MostInsideOneWindow(window, q, 1);
      LowQuotaIsOne(None, window, quota, times);
      assert !WithinQuota(window, quota, times, 0, 1);
    }
  }

  // ---- The object ---------------------------------------------------------------------

  class PeriodLimiter {
    const period: int
    const quota: int
    var localCount: Counters

    constructor (period: int, quota: int)
      ensures this.period == period && this.quota == quota && localCount == map[]
    {
      this.period := period;
      this.quota := quota;
      localCount := map[];
    }

    method LocalTake(key: string, now: int) returns (allowed: bool)
      modifies this
      ensures allowed == Admits(old(localCount), quota, key, now)
      ensures localCount == Taken(old(localCount), period * NANOS_PER_SECOND, key, now)
    {
      if key !in localCount || now > localCount[key].expireAt {
        localCount := localCount[key := Counter(1, now + period * NANOS_PER_SECOND)];
        return true;
      }
      var counter := localCount[key];
      counter := counter.(count := counter.count + 1);
      localCount := localCount[key := counter];
      if counter.count > quota {
        return false;
      }
      return true;
    }

    /** One clean-up pass; the map is visited in any order. */
    method CleanupPass(now: int)
      modifies this
      ensures localCount == Cleaned(old(localCount), now)
      ensures forall k :: k in localCount <==> k in old(localCount) && old(localCount)[k].expireAt >= now
      ensures forall k | k in localCount :: localCount[k] == old(localCount)[k]
    {
      var pending := localCount.Keys;
      while pending != {}
        invariant pending <= localCount.Keys <= old(localCount).Keys
        invariant forall k | k in localCount :: localCount[k] == old(localCount)[k]
        invariant forall k | k in old(localCount) && k !in pending ::
          k in localCount <==> now <= old(localCount)[k].expireAt
        decreases pending
      {
        var k :| k in pending;
        pending := pending - {k};
        if now > localCount[k].expireAt {
          localCount := localCount - {k};
        }
      }
    }
  }
}
