/** The token-bucket limiter: a Redis script over two expiring keys, and a local bucket used
    whenever Redis does not answer. Tokens and times are reals in the local bucket; the script
    works on whole seconds, where every quantity is an integer. */
module TokenLimit {
  import opened Arithmetic
  import opened Common

  // ---- The local bucket ----------------------------------------------------------

  datatype Bucket = Bucket(tokens: real, last: real)
  datatype Call = Call(now: real, n: real)

  function MinReal(a: real, b: real): real {
    if a <= b then a else b
  }

  /** `base` tokens and the refill of a span of time. */
  function Grown(rate: real, base: real, span: real): real {
    base + span * rate
  }

  function Refilled(rate: real, burst: real, b: Bucket, now: real): real {
    MinReal(burst, Grown(rate, b.tokens, now - b.last))
  }

  lemma GrownInTwo(rate: real, base: real, a: real, b: real)
    ensures Grown(rate, base, a + b) == Grown(rate, Grown(rate, base, a), b)
  {
  }

  lemma GrownShift(rate: real, base: real, more: real, span: real)
    ensures Grown(rate, base + more, span) == Grown(rate, base, span) + more
  {
  }

  lemma GrownMono(rate: real, base: real, a: real, b: real)
    requires 0.0 <= rate && a <= b
    ensures Grown(rate, base, a) <= Grown(rate, base, b)
  {
    assert (b - a) * rate >= 0.0;
  }

  lemma GrownShrinks(rate: real, base: real, span: real)
    requires rate <= 0.0 <= span
    ensures Grown(rate, base, span) <= base
  {
    assert span * (-rate) >= 0.0;
  }

  lemma GrownAtOnce(rate: real, base: real)
    ensures Grown(rate, base, 0.0) == base
  {
  }

  predicate LocalAllows(rate: real, burst: real, b: Bucket, call: Call) {
    Refilled(rate, burst, b, call.now) >= call.n
  }

  function LocalStep(rate: real, burst: real, b: Bucket, call: Call): Bucket {
    var tokens := Refilled(rate, burst, b, call.now);
    Bucket(if LocalAllows(rate, burst, b, call) then tokens - call.n else tokens, call.now)
  }

  function NewBucket(burst: real, start: real): Bucket {
    Bucket(burst, start)
  }

  function LocalRun(rate: real, burst: real, start: real, calls: seq<Call>): Bucket {
    if calls == [] then NewBucket(burst, start)
    else LocalStep(rate, burst, LocalRun(rate, burst, start, calls[..|calls| - 1]), calls[|calls| - 1])
  }

  predicate Allowed(rate: real, burst: real, start: real, calls: seq<Call>, j: nat)
    requires j < |calls|
  {
    LocalAllows(rate, burst, LocalRun(rate, burst, start, calls[..j]), calls[j])
  }

  /** Tokens handed out by calls i, ..., j-1. */
  function Granted(rate: real, burst: real, start: real, calls: seq<Call>, i: nat, j: nat): real
    requires i <= j <= |calls|
    decreases j - i
  {
    if i == j then 0.0
    else Granted(rate, burst, start, calls, i, j - 1)
         + if Allowed(rate, burst, start, calls, j - 1) then calls[j - 1].n else 0.0
  }

  /** The points a call may be measured from: creation (-1), an earlier call, the call itself. */
  function PointTime(start: real, calls: seq<Call>, s: int): real
    requires -1 <= s < |calls|
  {
    if s == -1 then start else calls[s].now
  }

  function FirstCall(s: int): nat
    requires -1 <= s
  {
    if s == -1 then 0 else s
  }

  /** What call `j` finds in the bucket once it has been refilled. */
  function Level(rate: real, burst: real, start: real, calls: seq<Call>, j: nat): real
    requires j < |calls|
  {
    Refilled(rate, burst, LocalRun(rate, burst, start, calls[..j]), calls[j].now)
  }

  function Grant(rate: real, burst: real, start: real, calls: seq<Call>, j: nat): real
    requires j < |calls|
  {
    if Allowed(rate, burst, start, calls, j) then calls[j].n else 0.0
  }

  /** What a full bucket at point `s` would still hold at call `j` after the grants since. */
  function Allowance(rate: real, burst: real, start: real, calls: seq<Call>, s: int, j: nat): real
    requires -1 <= s <= j < |calls|
  {
    Grown(rate, burst, calls[j].now - PointTime(start, calls, s))
      - Granted(rate, burst, start, calls, FirstCall(s), j)
  }

  lemma AllowanceStep(rate: real, burst: real, start: real, calls: seq<Call>, s: int, j: nat)
    requires -1 <= s < j < |calls| && 0 < j
    ensures Allowance(rate, burst, start, calls, s, j)
      == Grown(rate, Allowance(rate, burst, start, calls, s, j - 1) - Grant(rate, burst, start, calls, j - 1),
               calls[j].now - calls[j - 1].now)
  {
    var p, q, t := PointTime(start, calls, s), calls[j - 1].now, calls[j].now;
    var since := Granted(rate, burst, start, calls, FirstCall(s), j);
    assert (q - p) + (t - q) == t - p;
    GrownInTwo(rate, burst, q - p, t - q);
    GrownShift(rate, Grown(rate, burst, q - p), -since, t - q);
  }

  lemma LevelStep(rate: real, burst: real, start: real, calls: seq<Call>, j: nat)
    requires 0 < j < |calls|
    ensures Level(rate, burst, start, calls, j)
      == MinReal(burst, Grown(rate, Level(rate, burst, start, calls, j - 1) - Grant(rate, burst, start, calls, j - 1),
                              calls[j].now - calls[j - 1].now))
  {
    assert calls[..j][..j - 1] == calls[..j - 1];
  }

  /** Min-plus form: the level is the least allowance over all points. */
  lemma {:induction false} LevelIsLeastAllowance(rate: real, burst: real, start: real, calls: seq<Call>, j: nat)
      returns (low: int)
    requires j < |calls|
    ensures -1 <= low <= j
    ensures Level(rate, burst, start, calls, j) == Allowance(rate, burst, start, calls, low, j)
    ensures forall s | -1 <= s <= j ::
      Level(rate, burst, start, calls, j) <= Allowance(rate, burst, start, calls, s, j)
    decreases j
  {
    var level := Level(rate, burst, start, calls, j);
    assert Allowance(rate, burst, start, calls, j, j) == burst by { GrownAtOnce(rate, burst); }
    if j == 0 {
      assert calls[..0] == [];
      assert level == MinReal(burst, Allowance(rate, burst, start, calls, -1, 0));
      low := if level == burst then 0 else -1;
    } else {
      var prior := LevelIsLeastAllowance(rate, burst, start, calls, j - 1);
      var before, grant := Level(rate, burst, start, calls, j - 1), Grant(rate, burst, start, calls, j - 1);
      var span := calls[j].now - calls[j - 1].now;
      LevelStep(rate, burst, start, calls, j);
      forall s | -1 <= s < j ensures level <= Allowance(rate, burst, start, calls, s, j) {
        AllowanceStep(rate, burst, start, calls, s, j);
        var earlier := Allowance(rate, burst, start, calls, s, j - 1);
        GrownShift(rate, before - grant, earlier - before, span);
      }
      AllowanceStep(rate, burst, start, calls, prior, j);
      low := if level == burst then j else prior;
    }
  }

  /** Exact token bucket, for any calls whatsoever: n is denied at t if and only if for some
      point s the tokens granted since s plus n exceed burst + rate*(t - s). */
  lemma DeniedIff(rate: real, burst: real, start: real, calls: seq<Call>, j: nat)
    requires j < |calls|
    ensures !Allowed(rate, burst, start, calls, j) <==>
      exists s :: -1 <= s <= j &&
        Granted(rate, burst, start, calls, FirstCall(s), j) + calls[j].n
          > Grown(rate, burst, calls[j].now - PointTime(start, calls, s))
  {
    var low := LevelIsLeastAllowance(rate, burst, start, calls, j);
    if !Allowed(rate, burst, start, calls, j) {
      assert Allowance(rate, burst, start, calls, low, j) < calls[j].n;
      assert Granted(rate, burst, start, calls, FirstCall(low), j) + calls[j].n
          > Grown(rate, burst, calls[j].now - PointTime(start, calls, low));
    } else {
      forall s | -1 <= s <= j
        ensures Granted(rate, burst, start, calls, FirstCall(s), j) + calls[j].n
          <= Grown(rate, burst, calls[j].now - PointTime(start, calls, s))
      {
        AdmittedIsCovered(rate, burst, start, calls, s, j);
      }
    }
  }

  lemma AdmittedIsCovered(rate: real, burst: real, start: real, calls: seq<Call>, s: int, j: nat)
    requires -1 <= s <= j < |calls| && Allowed(rate, burst, start, calls, j)
    ensures Granted(rate, burst, start, calls, FirstCall(s), j) + calls[j].n
      <= Grown(rate, burst, calls[j].now - PointTime(start, calls, s))
  {
    var low := LevelIsLeastAllowance(rate, burst, start, calls, j);
    assert calls[j].n <= Level(rate, burst, start, calls, j) <= Allowance(rate, burst, start, calls, s, j);
  }

  /** Hence any span of calls that ends in an admitted one was granted at most
      burst + rate * (length of the span). */
  lemma SpanBound(rate: real, burst: real, start: real, calls: seq<Call>, i: nat, j: nat)
    requires i <= j < |calls| && Allowed(rate, burst, start, calls, j)
    ensures Granted(rate, burst, start, calls, i, j + 1) <= Grown(rate, burst, calls[j].now - calls[i].now)
  {
    AdmittedIsCovered(rate, burst, start, calls, i, j);
  }

  // ---- The Redis script -----------------------------------------------------------

  /** A key written by SETEX: it may vanish once `ttl` seconds have passed. */
  datatype Cell = Cell(value: int, setAt: int, ttl: int)
  datatype Keys = Keys(tokens: Option<Cell>, ts: Option<Cell>)

  /** When Redis drops expired keys is its own affair: each request says which of the two keys,
      if expired, are found gone. */
  datatype Request = Request(now: int, n: int, tokensGone: bool, tsGone: bool)

  const NO_KEYS := Keys(None, None)

  /** math.floor of a quotient. */
  function FloorDiv(a: int, b: int): int
    requires b != 0
  {
    if b > 0 then a / b else (-a) / (-b)
  }

  function Ttl(rate: int, capacity: int): int
    requires rate != 0
  {
    FloorDiv(2 * capacity, rate)
  }

  /** SETEX rejects a time to live that is not a positive integer, and then the script fails. A zero
      rate makes it infinite or not a number. */
  predicate ScriptRuns(rate: int, capacity: int) {
    rate != 0 && Ttl(rate, capacity) >= 1
  }

  function Found(cell: Option<Cell>, now: int, gone: bool): Option<Cell> {
    if cell.Some? && gone && now >= cell.value.setAt + cell.value.ttl then None else cell
  }

  function Filled(rate: int, capacity: int, keys: Keys, r: Request): int {
    var tokens, ts := Found(keys.tokens, r.now, r.tokensGone), Found(keys.ts, r.now, r.tsGone);
    var lastTokens := if tokens.Some? then tokens.value.value else capacity;
    var lastRefreshed := if ts.Some? then ts.value.value else 0;
    Min(capacity, lastTokens + Max(0, r.now - lastRefreshed) * rate)
  }

  predicate ScriptAllows(rate: int, capacity: int, keys: Keys, r: Request) {
    Filled(rate, capacity, keys, r) >= r.n
  }

  function ScriptStep(rate: int, capacity: int, keys: Keys, r: Request): Keys
    requires ScriptRuns(rate, capacity)
  {
    var filled, ttl := Filled(rate, capacity, keys, r), Ttl(rate, capacity);
    var left := if ScriptAllows(rate, capacity, keys, r) then filled - r.n else filled;
    Keys(Some(Cell(left, r.now, ttl)), Some(Cell(r.now, r.now, ttl)))
  }

  lemma PositiveQuotientIff(a: int, d: int)
    requires d > 0
    ensures a / d >= 1 <==> d <= a
  {
    DivBounds(a, d);
    if d <= a && a / d <= 0 {
      MulMono(a / d, 0, d);
    }
    if a / d >= 1 {
      MulMono(1, a / d, d);
    }
  }

  /** Two negative settings make a positive time to live as well. */
  lemma ScriptRunsIff(rate: int, capacity: int)
    ensures ScriptRuns(rate, capacity) <==> 0 < rate <= 2 * capacity || 2 * capacity <= rate < 0
  {
    if rate > 0 {
      PositiveQuotientIff(2 * capacity, rate);
    } else if rate < 0 {
      PositiveQuotientIff(-(2 * capacity), -rate);
    }
  }

  /** The time to live is long enough to fill the bucket from empty. */
  lemma TtlFills(rate: int, capacity: int)
    requires ScriptRuns(rate, capacity) && rate > 0
    ensures Ttl(rate, capacity) * rate >= capacity
  {
    ScriptRunsIff(rate, capacity);
    DivBounds(2 * capacity, rate);
    MulMono(1, Ttl(rate, capacity), rate);
  }

  // ---- A bucket that never forgets --------------------------------------------------

  datatype Plain = Plain(tokens: int, ts: int)

  function PlainFilled(rate: int, capacity: int, p: Plain, now: int): int {
    Min(capacity, p.tokens + Max(0, now - p.ts) * rate)
  }

  function PlainStep(rate: int, capacity: int, p: Plain, now: int, n: int): Plain {
    var filled := PlainFilled(rate, capacity, p, now);
    Plain(if filled >= n then filled - n else filled, now)
  }

  /** The two keys stand for the plain bucket: a missing key is only possible
      while the plain bucket is full. */
  ghost predicate Mirrors(rate: int, capacity: int, keys: Keys, p: Plain, clock: int)
    requires rate > 0
  {
    && 0 <= p.tokens && 0 <= p.ts <= clock
    && (keys.tokens.None? || keys.ts.None? ==> p.tokens + (clock - p.ts) * rate >= capacity)
    && (keys.tokens.Some? ==> keys.tokens.value == Cell(p.tokens, p.ts, Ttl(rate, capacity)))
    && (keys.ts.Some? ==> keys.ts.value == Cell(p.ts, p.ts, Ttl(rate, capacity)))
  }

  lemma SameFill(rate: int, capacity: int, keys: Keys, p: Plain, clock: int, r: Request)
    requires ScriptRuns(rate, capacity) && rate > 0 && Mirrors(rate, capacity, keys, p, clock) && clock <= r.now
    ensures Filled(rate, capacity, keys, r) == PlainFilled(rate, capacity, p, r.now) >= 0
  {
    ScriptRunsIff(rate, capacity);
    var tokens, ts := Found(keys.tokens, r.now, r.tokensGone), Found(keys.ts, r.now, r.tsGone);
    var refill := (r.now - p.ts) * rate;
    MulMono(0, r.now - p.ts, rate);
    MulMono(r.now - p.ts, r.now, rate);
    MulMono(clock - p.ts, r.now - p.ts, rate);
    if tokens.None? || ts.None? {
      if keys.tokens.Some? && keys.ts.Some? {
        TtlFills(rate, capacity);
        MulMono(Ttl(rate, capacity), r.now - p.ts, rate);
      }
      assert p.tokens + refill >= capacity;
    }
  }

  lemma ScriptStepMirrors(rate: int, capacity: int, keys: Keys, p: Plain, clock: int, r: Request)
    requires ScriptRuns(rate, capacity) && rate > 0 && Mirrors(rate, capacity, keys, p, clock) && clock <= r.now
    ensures ScriptAllows(rate, capacity, keys, r) == (PlainFilled(rate, capacity, p, r.now) >= r.n)
    ensures Mirrors(rate, capacity, ScriptStep(rate, capacity, keys, r),
                    PlainStep(rate, capacity, p, r.now, r.n), r.now)
  {
    SameFill(rate, capacity, keys, p, clock, r);
  }

  function ScriptRun(rate: int, capacity: int, requests: seq<Request>): (Keys, seq<bool>)
    requires ScriptRuns(rate, capacity)
  {
    if requests == [] then (NO_KEYS, [])
    else
      var (keys, answers) := ScriptRun(rate, capacity, requests[..|requests| - 1]);
      var r := requests[|requests| - 1];
      (ScriptStep(rate, capacity, keys, r), answers + [ScriptAllows(rate, capacity, keys, r)])
  }

  function PlainRun(rate: int, capacity: int, requests: seq<Request>): (Plain, seq<bool>) {
    if requests == [] then (Plain(capacity, 0), [])
    else
      var (p, answers) := PlainRun(rate, capacity, requests[..|requests| - 1]);
      var r := requests[|requests| - 1];
      (PlainStep(rate, capacity, p, r.now, r.n), answers + [PlainFilled(rate, capacity, p, r.now) >= r.n])
  }

  ghost predicate Timely(requests: seq<Request>) {
    && (forall i | 0 <= i < |requests| :: 0 <= requests[i].now)
    && (forall i, j | 0 <= i < j < |requests| :: requests[i].now <= requests[j].now)
  }

  /** Expiry is invisible: whichever expired keys Redis has dropped, the script answers every
      sequence of requests exactly as the bucket whose keys never expire. */
  lemma {:induction false} ExpiryIsInvisible(rate: int, capacity: int, requests: seq<Request>)
    requires ScriptRuns(rate, capacity) && rate > 0 && Timely(requests)
    ensures ScriptRun(rate, capacity, requests).1 == PlainRun(rate, capacity, requests).1
    ensures Mirrors(rate, capacity, ScriptRun(rate, capacity, requests).0, PlainRun(rate, capacity, requests).0,
                    if requests == [] then 0 else requests[|requests| - 1].now)
  {
    if requests == [] {
      ScriptRunsIff(rate, capacity);
    } else {
      var before, r := requests[..|requests| - 1], requests[|requests| - 1];
      ExpiryIsInvisible(rate, capacity, before);
      var clock := if before == [] then 0 else before[|before| - 1].now;
      ScriptStepMirrors(rate, capacity, ScriptRun(rate, capacity, before).0,
                        PlainRun(rate, capacity, before).0, clock, r);
    }
  }

  /** Two requests that a negative rate answers differently once the keys have expired. */
  function Forgotten(rate: int, capacity: int): seq<Request>
    requires rate != 0
  {
    var ttl := Ttl(rate, capacity);
    [Request(0, ttl * rate, false, false), Request(ttl, capacity, true, true)]
  }

  lemma NegativeRateForgets(rate: int, capacity: int)
    requires ScriptRuns(rate, capacity) && rate < 0
    ensures var requests := Forgotten(rate, capacity);
      && Timely(requests)
      && ScriptRun(rate, capacity, requests).1 == [true, false]
      && PlainRun(rate, capacity, requests).1 == [true, true]
  {
    var ttl, requests := Ttl(rate, capacity), Forgotten(rate, capacity);
    ScriptRunsIff(rate, capacity);
    TtlFills(-rate, -capacity);
    var drop := ttl * rate;
    assert drop <= capacity && drop < 0 by {
      assert ttl * -rate == -drop;
      MulMono(1, ttl, -rate);
    }
    FirstAnswers(rate, capacity, requests[0]);
    var keys := Keys(Some(Cell(capacity - drop, 0, ttl)), Some(Cell(0, 0, ttl)));
    var p := Plain(capacity - drop, 0);
    assert requests[..1] == [requests[0]];
    assert ScriptRun(rate, capacity, requests[..1]) == (keys, [true]);
    assert PlainRun(rate, capacity, requests[..1]) == (p, [true]);
    assert Filled(rate, capacity, keys, requests[1]) == capacity + drop;
    assert PlainFilled(rate, capacity, p, ttl) == capacity;
  }

  lemma FirstAnswers(rate: int, capacity: int, r: Request)
    requires ScriptRuns(rate, capacity) && r.now == 0 && r.n <= capacity
    ensures var ttl := Ttl(rate, capacity);
      ScriptRun(rate, capacity, [r]) == (Keys(Some(Cell(capacity - r.n, 0, ttl)), Some(Cell(0, 0, ttl))), [true])
    ensures PlainRun(rate, capacity, [r]) == (Plain(capacity - r.n, 0), [true])
  {
    assert [r][..0] == [];
    assert Filled(rate, capacity, NO_KEYS, r) == capacity;
    assert ScriptRun(rate, capacity, [r][..0]) == (NO_KEYS, []);
    var ttl := Ttl(rate, capacity);
    assert ScriptStep(rate, capacity, NO_KEYS, r) == Keys(Some(Cell(capacity - r.n, 0, ttl)), Some(Cell(0, 0, ttl)));
    assert ScriptRun(rate, capacity, [r]).1 == [] + [true] == [true];
  }

  /** Expiry goes unnoticed in every run of timely requests if and only if the rate is positive. */
  lemma ExpiryInvisibleIff(rate: int, capacity: int)
    requires ScriptRuns(rate, capacity)
    ensures (forall requests | Timely(requests) ::
              ScriptRun(rate, capacity, requests).1 == PlainRun(rate, capacity, requests).1)
      <==> rate > 0
  {
    if rate > 0 {
      forall requests | Timely(requests)
        ensures ScriptRun(rate, capacity, requests).1 == PlainRun(rate, capacity, requests).1
      {
        ExpiryIsInvisible(rate, capacity, requests);
      }
    } else {
      NegativeRateForgets(rate, capacity);
    }
  }

  /** Requests for a nonnegative number of tokens never notice expiry: at a negative rate the capacity is
      negative too, and they are all denied. */
  lemma {:induction false} NonnegativeNeverNotice(rate: int, capacity: int, requests: seq<Request>)
    requires ScriptRuns(rate, capacity) && Timely(requests) && forall i | 0 <= i < |requests| :: 0 <= requests[i].n
    ensures ScriptRun(rate, capacity, requests).1 == PlainRun(rate, capacity, requests).1
  {
    if rate > 0 {
      ExpiryIsInvisible(rate, capacity, requests);
    } else if requests != [] {
      ScriptRunsIff(rate, capacity);
      NonnegativeNeverNotice(rate, capacity, requests[..|requests| - 1]);
    }
  }

  // ---- Readings out of order ----------------------------------------------------------

  // Callers read the clock before their script runs, so readings can reach the script out of order.

  predicate NothingGone(requests: seq<Request>) {
    forall i | 0 <= i < |requests| :: !requests[i].tokensGone && !requests[i].tsGone
  }

  /** While both keys live the script is the plain bucket, whatever the readings. */
  lemma {:induction false} KeptKeysArePlain(rate: int, capacity: int, requests: seq<Request>)
    requires ScriptRuns(rate, capacity) && NothingGone(requests)
    ensures ScriptRun(rate, capacity, requests).1 == PlainRun(rate, capacity, requests).1
    ensures var p, ttl := PlainRun(rate, capacity, requests).0, Ttl(rate, capacity);
      ScriptRun(rate, capacity, requests).0 == if requests == [] then NO_KEYS
        else Keys(Some(Cell(p.tokens, p.ts, ttl)), Some(Cell(p.ts, p.ts, ttl)))
  {
    if requests != [] {
      KeptKeysArePlain(rate, capacity, requests[..|requests| - 1]);
    }
  }

  /** Tokens granted to the requests that were answered yes. */
  function Total(requests: seq<Request>, answers: seq<bool>): int
    requires |requests| == |answers|
  {
    if requests == [] then 0
    else
      var k := |requests| - 1;
      Total(requests[..k], answers[..k]) + if answers[k] then requests[k].n else 0
  }

  function PlainTotal(rate: int, capacity: int, requests: seq<Request>): int {
    PlainAnswersEach(rate, capacity, requests);
    Total(requests, PlainRun(rate, capacity, requests).1)
  }

  lemma {:induction false} PlainAnswersEach(rate: int, capacity: int, requests: seq<Request>)
    ensures |PlainRun(rate, capacity, requests).1| == |requests|
  {
    if requests != [] {
      PlainAnswersEach(rate, capacity, requests[..|requests| - 1]);
    }
  }

  lemma PlainTotalStep(rate: int, capacity: int, requests: seq<Request>)
    requires requests != []
    ensures var before, r := requests[..|requests| - 1], requests[|requests| - 1];
      var filled := PlainFilled(rate, capacity, PlainRun(rate, capacity, before).0, r.now);
      PlainTotal(rate, capacity, requests) == PlainTotal(rate, capacity, before) + if filled >= r.n then r.n else 0
  {
    var k := |requests| - 1;
    PlainAnswersEach(rate, capacity, requests[..k]);
    var answers := PlainRun(rate, capacity, requests).1;
    assert answers[..k] == PlainRun(rate, capacity, requests[..k]).1;
  }

  function Readings(requests: seq<Request>): seq<int> {
    seq(|requests|, i requires 0 <= i < |requests| => requests[i].now)
  }

  /** A full bucket, and the refill of every step the readings take upward. */
  function Refills(rate: int, capacity: int, readings: seq<int>): int {
    if |readings| <= 1 then capacity
    else
      var k := |readings| - 1;
      Refills(rate, capacity, readings[..k]) + Refill(rate, capacity, readings[k] - readings[k - 1])
  }

  function Refill(rate: int, capacity: int, step: int): int {
    Min(capacity, Max(0, step) * rate)
  }

  lemma FillOverRefill(rate: int, capacity: int, p: Plain, now: int)
    requires 0 <= rate && 0 <= capacity && 0 <= p.tokens
    ensures 0 <= PlainFilled(rate, capacity, p, now) <= p.tokens + Refill(rate, capacity, now - p.ts)
  {
    MulMono(0, Max(0, now - p.ts), rate);
  }

  lemma {:induction false} PlainStaysNonnegative(rate: int, capacity: int, requests: seq<Request>)
    requires 0 <= rate && 0 <= capacity
    ensures var p := PlainRun(rate, capacity, requests).0;
      0 <= p.tokens && (requests != [] ==> p.ts == requests[|requests| - 1].now)
  {
    if requests != [] {
      var before := requests[..|requests| - 1];
      PlainStaysNonnegative(rate, capacity, before);
      FillOverRefill(rate, capacity, PlainRun(rate, capacity, before).0, requests[|requests| - 1].now);
    }
  }

  /** Whatever the readings, the calls i, ..., j-1 are granted no more than a full bucket and the refill
      of every step their readings take upward. */
  lemma {:induction false} SpanRefills(rate: int, capacity: int, requests: seq<Request>, i: nat, j: nat)
    requires 0 <= rate && 0 <= capacity && i < j <= |requests|
    ensures PlainTotal(rate, capacity, requests[..j]) - PlainTotal(rate, capacity, requests[..i])
      + PlainRun(rate, capacity, requests[..j]).0.tokens
      <= Refills(rate, capacity, Readings(requests[i..j]))
    decreases j
  {
    var before, r := requests[..j - 1], requests[j - 1];
    assert requests[..j][..j - 1] == before;
    var p := PlainRun(rate, capacity, before).0;
    PlainStaysNonnegative(rate, capacity, before);
    FillOverRefill(rate, capacity, p, r.now);
    PlainTotalStep(rate, capacity, requests[..j]);
    if i < j - 1 {
      SpanRefills(rate, capacity, requests, i, j - 1);
      RefillsOfSpan(rate, capacity, requests, i, j);
      assert before[|before| - 1] == requests[j - 2];
    }
  }

  lemma RefillsOfSpan(rate: int, capacity: int, requests: seq<Request>, i: nat, j: nat)
    requires i < j - 1 && j <= |requests|
    ensures Refills(rate, capacity, Readings(requests[i..j]))
      == Refills(rate, capacity, Readings(requests[i..j - 1]))
         + Refill(rate, capacity, requests[j - 1].now - requests[j - 2].now)
  {
    var readings := Readings(requests[i..j]);
    assert readings[..j - i - 1] == Readings(requests[i..j - 1]);
    assert readings[j - i - 2] == requests[j - 2].now && readings[j - i - 1] == requests[j - 1].now;
  }

  /** Each request takes all the bucket holds. */
  function Greedy(rate: int, capacity: int, readings: seq<int>): seq<Request> {
    seq(|readings|, i requires 0 <= i < |readings| =>
      Request(readings[i], if i == 0 then capacity else Refill(rate, capacity, readings[i] - readings[i - 1]),
              false, false))
  }

  lemma FillFromFull(rate: int, capacity: int, now: int)
    requires 0 <= rate
    ensures PlainFilled(rate, capacity, Plain(capacity, 0), now) == capacity
  {
    MulMono(0, Max(0, now), rate);
  }

  lemma FillFromEmpty(rate: int, capacity: int, ts: int, now: int)
    ensures PlainFilled(rate, capacity, Plain(0, ts), now) == Refill(rate, capacity, now - ts)
  {
  }

  lemma GreedyPrefix(rate: int, capacity: int, readings: seq<int>, k: nat)
    requires k == |readings| - 1
    ensures var requests := Greedy(rate, capacity, readings);
      && requests[..k] == Greedy(rate, capacity, readings[..k]) && requests[k].now == readings[k]
      && requests[k].n == if k == 0 then capacity else Refill(rate, capacity, readings[k] - readings[k - 1])
  {
  }

  /** And that much can be granted. */
  lemma {:induction false} RefillsAreReached(rate: int, capacity: int, readings: seq<int>)
    requires 0 <= rate && 0 <= capacity && readings != []
    ensures PlainTotal(rate, capacity, Greedy(rate, capacity, readings)) == Refills(rate, capacity, readings)
    ensures PlainRun(rate, capacity, Greedy(rate, capacity, readings)).0 == Plain(0, readings[|readings| - 1])
    decreases |readings|
  {
    var k := |readings| - 1;
    GreedyPrefix(rate, capacity, readings, k);
    if k == 0 {
      assert PlainRun(rate, capacity, Greedy(rate, capacity, readings[..k])).0 == Plain(capacity, 0);
      FillFromFull(rate, capacity, readings[0]);
      DrainedAtOnce(rate, capacity, Greedy(rate, capacity, readings), Plain(capacity, 0));
    } else {
      RefillsAreReached(rate, capacity, readings[..k]);
      FillFromEmpty(rate, capacity, readings[k - 1], readings[k]);
      DrainedAtOnce(rate, capacity, Greedy(rate, capacity, readings), Plain(0, readings[k - 1]));
    }
  }

  /** A last request for just what the bucket holds empties it. */
  lemma DrainedAtOnce(rate: int, capacity: int, requests: seq<Request>, p: Plain)
    requires requests != [] && PlainRun(rate, capacity, requests[..|requests| - 1]).0 == p
    ensures var r := requests[|requests| - 1];
      PlainFilled(rate, capacity, p, r.now) == r.n ==>
        && PlainTotal(rate, capacity, requests) == PlainTotal(rate, capacity, requests[..|requests| - 1]) + r.n
        && PlainRun(rate, capacity, requests).0 == Plain(0, r.now)
  {
    PlainTotalStep(rate, capacity, requests);
  }

  /** Ordered readings refill no more than the time they span. */
  lemma {:induction false} OrderedRefills(rate: int, capacity: int, readings: seq<int>)
    requires 0 <= rate && readings != [] && forall i | 0 < i < |readings| :: readings[i - 1] <= readings[i]
    ensures Refills(rate, capacity, readings) <= capacity + (readings[|readings| - 1] - readings[0]) * rate
    decreases |readings|
  {
    var k := |readings| - 1;
    if k > 0 {
      OrderedRefills(rate, capacity, readings[..k]);
      MulAdd(readings[k - 1] - readings[0], readings[k] - readings[k - 1], rate);
    }
  }

  /** Two callers, one a second behind the other, taking turns. */
  function Alternating(k: nat): seq<int> {
    if k == 0 then [0] else Alternating(k - 1) + [1, 0]
  }

  lemma {:induction false} AlternatingRefills(rate: int, capacity: int, k: nat)
    requires 1 <= rate && 1 <= capacity
    ensures Alternating(k) != [] && Alternating(k)[|Alternating(k)| - 1] == 0
    ensures forall i | 0 <= i < |Alternating(k)| :: 0 <= Alternating(k)[i] <= 1
    ensures Refills(rate, capacity, Alternating(k)) >= capacity + k
  {
    if k > 0 {
      AlternatingRefills(rate, capacity, k - 1);
      var before, all := Alternating(k - 1), Alternating(k);
      assert all[..|all| - 1][..|all| - 2] == before && all[|all| - 2] == 1 && all[|all| - 3] == 0;
      assert all[..|all| - 1][|all| - 2] == 1;
    }
  }

  /** So out of order there is no bound: with all readings within one second the script can be made to
      grant any number of tokens. */
  lemma StaleReadingsPump(rate: int, capacity: int, bound: nat) returns (requests: seq<Request>)
    requires ScriptRuns(rate, capacity) && rate > 0
    ensures NothingGone(requests) && forall i | 0 <= i < |requests| :: 0 <= requests[i].now <= 1
    ensures |ScriptRun(rate, capacity, requests).1| == |requests|
    ensures Total(requests, ScriptRun(rate, capacity, requests).1) > bound
  {
    ScriptRunsIff(rate, capacity);
    AlternatingRefills(rate, capacity, bound);
    requests := Greedy(rate, capacity, Alternating(bound));
    RefillsAreReached(rate, capacity, Alternating(bound));
    KeptKeysArePlain(rate, capacity, requests);
    PlainAnswersEach(rate, capacity, requests);
  }

  // ---- Failing over -------------------------------------------------------------------

  /** What becomes of the call to Redis: it is answered, it runs but the answer is lost,
      or it never runs (no client, or an error before the script). */
  datatype Redis = Answered | AnswerLost | NotRun

  datatype Event = Event(now: real, n: int, redis: Redis, tokensGone: bool, tsGone: bool)

  datatype Limiter = Limiter(rate: int, burst: int, local: Bucket, keys: Keys)

  function RequestOf(e: Event): Request {
    Request(e.now.Floor, e.n, e.tokensGone, e.tsGone)
  }

  function CallOf(e: Event): Call {
    Call(e.now, e.n as real)
  }

  predicate UsesScript(l: Limiter, e: Event) {
    e.redis.Answered? && ScriptRuns(l.rate, l.burst)
  }

  predicate Reserves(l: Limiter, e: Event) {
    if UsesScript(l, e) then ScriptAllows(l.rate, l.burst, l.keys, RequestOf(e))
    else LocalAllows(l.rate as real, l.burst as real, l.local, CallOf(e))
  }

  function ReserveStep(l: Limiter, e: Event): Limiter {
    l.(keys := if !e.redis.NotRun? && ScriptRuns(l.rate, l.burst)
               then ScriptStep(l.rate, l.burst, l.keys, RequestOf(e)) else l.keys,
       local := if UsesScript(l, e) then l.local
                else LocalStep(l.rate as real, l.burst as real, l.local, CallOf(e)))
  }

  function ReserveRun(l: Limiter, events: seq<Event>): Limiter {
    if events == [] then l else ReserveStep(ReserveRun(l, events[..|events| - 1]), events[|events| - 1])
  }

  function NewLimiter(rate: int, burst: int, start: real): Limiter {
    Limiter(rate, burst, NewBucket(burst as real, start), NO_KEYS)
  }

  /** Tokens handed out by events i, ..., j-1: by the script, or by the local bucket. */
  function Handed(l: Limiter, events: seq<Event>, i: nat, j: nat, byScript: bool): int
    requires i <= j <= |events|
    decreases j - i
  {
    if i == j then 0
    else
      var now, e := ReserveRun(l, events[..j - 1]), events[j - 1];
      Handed(l, events, i, j - 1, byScript)
        + if Reserves(now, e) && UsesScript(now, e) == byScript then e.n else 0
  }

  ghost predicate TimelyEvents(start: real, events: seq<Event>) {
    && 0.0 <= start
    && (forall i | 0 <= i < |events| :: start <= events[i].now && 0 <= events[i].n)
    && (forall i, j | 0 <= i < j < |events| :: events[i].now <= events[j].now)
  }

  // ---- Who answers, and what ------------------------------------------------------------

  /** The local bucket decides: the script did not answer, or could not run. */
  predicate FallsBack(rate: int, burst: int, e: Event) {
    !e.redis.Answered? || !ScriptRuns(rate, burst)
  }

  /** The calls that fell back, in order. */
  function Fallbacks(rate: int, burst: int, events: seq<Event>): seq<Call> {
    if events == [] then []
    else
      var before, e := Fallbacks(rate, burst, events[..|events| - 1]), events[|events| - 1];
      if FallsBack(rate, burst, e) then before + [CallOf(e)] else before
  }

  /** The requests whose script ran, answered or not, in order. */
  function ScriptCalls(rate: int, burst: int, events: seq<Event>): seq<Request> {
    if events == [] then []
    else
      var before, e := ScriptCalls(rate, burst, events[..|events| - 1]), events[|events| - 1];
      if !e.redis.NotRun? && ScriptRuns(rate, burst) then before + [RequestOf(e)] else before
  }

  /** The local bucket has seen exactly the calls that fell back, the keys exactly those whose script ran. */
  lemma {:induction false} RunSplits(rate: int, burst: int, start: real, events: seq<Event>)
    ensures var l := ReserveRun(NewLimiter(rate, burst, start), events);
      && l.rate == rate && l.burst == burst
      && l.local == LocalRun(rate as real, burst as real, start, Fallbacks(rate, burst, events))
      && l.keys == if ScriptRuns(rate, burst) then ScriptRun(rate, burst, ScriptCalls(rate, burst, events)).0 else NO_KEYS
  {
    if events != [] {
      var before, e := events[..|events| - 1], events[|events| - 1];
      RunSplits(rate, burst, start, before);
      var calls, requests := Fallbacks(rate, burst, before), ScriptCalls(rate, burst, before);
      assert (calls + [CallOf(e)])[..|calls|] == calls;
      assert (requests + [RequestOf(e)])[..|requests|] == requests;
    }
  }

  /** From point `s` on, the grants and what call `k` asks for exceed burst + rate * (time since). */
  predicate Exceeds(rate: real, burst: real, start: real, calls: seq<Call>, s: int, k: nat)
    requires -1 <= s <= k < |calls|
  {
    Granted(rate, burst, start, calls, FirstCall(s), k) + calls[k].n
      > Grown(rate, burst, calls[k].now - PointTime(start, calls, s))
  }

  /** From some earlier call, or from creation, more would have been taken than the bucket can hold. */
  predicate Overdrawn(rate: real, burst: real, start: real, calls: seq<Call>, k: nat)
    requires k < |calls|
  {
    exists s | -1 <= s <= k :: Exceeds(rate, burst, start, calls, s, k)
  }

  lemma DeniedIffExceeds(rate: real, burst: real, start: real, calls: seq<Call>, k: nat)
    requires k < |calls|
    ensures !Allowed(rate, burst, start, calls, k) <==> Overdrawn(rate, burst, start, calls, k)
  {
    DeniedIff(rate, burst, start, calls, k);
    if !Allowed(rate, burst, start, calls, k) {
      var s :| -1 <= s <= k && Granted(rate, burst, start, calls, FirstCall(s), k) + calls[k].n
          > Grown(rate, burst, calls[k].now - PointTime(start, calls, s));
      assert Exceeds(rate, burst, start, calls, s, k);
    }
  }

  /** In every run a call that falls back is answered as the local bucket answers it among the calls that
      fell back: it is denied exactly when from some earlier one of them, or from creation, the grants
      since and n exceed burst + rate * (time since). */
  lemma FallbackAnswer(rate: int, burst: int, start: real, events: seq<Event>, j: nat)
    requires j < |events| && FallsBack(rate, burst, events[j])
    ensures var calls := Fallbacks(rate, burst, events[..j + 1]);
      var k, reserved := |calls| - 1, Reserves(ReserveRun(NewLimiter(rate, burst, start), events[..j]), events[j]);
      && k >= 0 && calls[k] == Call(events[j].now, events[j].n as real)
      && (reserved <==> Allowed(rate as real, burst as real, start, calls, k))
      && (!reserved <==> Overdrawn(rate as real, burst as real, start, calls, k))
  {
    assert events[..j + 1][..j] == events[..j];
    var calls := Fallbacks(rate, burst, events[..j + 1]);
    var k := |calls| - 1;
    assert calls[..k] == Fallbacks(rate, burst, events[..j]);
    RunSplits(rate, burst, start, events[..j]);
    DeniedIffExceeds(rate as real, burst as real, start, calls, k);
  }

  lemma {:induction false} ScriptCallsAreTimely(rate: int, burst: int, start: real, events: seq<Event>)
    requires TimelyEvents(start, events)
    ensures var requests := ScriptCalls(rate, burst, events);
      && Timely(requests) && (forall i | 0 <= i < |requests| :: 0 <= requests[i].n)
      && (requests != [] ==> events != [] && requests[|requests| - 1].now <= events[|events| - 1].now.Floor)
  {
    if events != [] {
      var before, e := events[..|events| - 1], events[|events| - 1];
      ScriptCallsAreTimely(rate, burst, start, before);
      FloorMono(0.0, e.now);
      if before != [] {
        FloorMono(before[|before| - 1].now, e.now);
      }
      AppendTimely(ScriptCalls(rate, burst, before), RequestOf(e));
    }
  }

  lemma AppendTimely(requests: seq<Request>, r: Request)
    requires Timely(requests) && 0 <= r.now && (requests != [] ==> requests[|requests| - 1].now <= r.now)
    ensures Timely(requests + [r])
  {
    var all := requests + [r];
    forall i, j | 0 <= i < j < |all| ensures all[i].now <= all[j].now {
      assert requests[i].now <= requests[|requests| - 1].now;
    }
  }

  /** Requests as calls on a clock of whole seconds. */
  function WholeCalls(requests: seq<Request>): seq<Call> {
    seq(|requests|, i requires 0 <= i < |requests| => Call(requests[i].now as real, requests[i].n as real))
  }

  lemma SameRefill(rate: nat, capacity: int, p: Plain, now: int)
    requires p.ts <= now
    ensures PlainFilled(rate, capacity, p, now) as real
      == Refilled(rate as real, capacity as real, Bucket(p.tokens as real, p.ts as real), now as real)
  {
    CastProduct(now - p.ts, rate);
    assert (p.tokens + (now - p.ts) * rate) as real == p.tokens as real + ((now - p.ts) * rate) as real;
  }

  /** At ordered readings the bucket that never forgets is the local bucket on whole seconds, created at 0. */
  lemma {:induction false} PlainIsLocal(rate: nat, capacity: int, requests: seq<Request>)
    requires Timely(requests)
    ensures var p := PlainRun(rate, capacity, requests).0;
      && LocalRun(rate as real, capacity as real, 0.0, WholeCalls(requests)) == Bucket(p.tokens as real, p.ts as real)
      && p.ts == (if requests == [] then 0 else requests[|requests| - 1].now)
    ensures |PlainRun(rate, capacity, requests).1| == |requests|
    ensures requests != [] ==>
      (PlainRun(rate, capacity, requests).1[|requests| - 1] ==
       Allowed(rate as real, capacity as real, 0.0, WholeCalls(requests), |requests| - 1))
  {
    if requests != [] {
      var k := |requests| - 1;
      PlainIsLocal(rate, capacity, requests[..k]);
      assert WholeCalls(requests)[..k] == WholeCalls(requests[..k]);
      SameRefill(rate, capacity, PlainRun(rate, capacity, requests[..k]).0, requests[k].now);
    }
  }

  lemma ScriptAnswersEach(rate: int, capacity: int, requests: seq<Request>)
    requires ScriptRuns(rate, capacity) && requests != []
    ensures var k := |requests| - 1;
      ScriptRun(rate, capacity, requests).1 ==
        ScriptRun(rate, capacity, requests[..k]).1
          + [ScriptAllows(rate, capacity, ScriptRun(rate, capacity, requests[..k]).0, requests[k])]
  {
  }

  /** In every run with ordered readings a call the script answers is answered as the local bucket would
      answer it on a clock of whole seconds, full at 0, among the calls whose script ran; and denied if the
      rate is negative. */
  lemma ScriptAnswer(rate: int, burst: int, start: real, events: seq<Event>, j: nat)
    requires TimelyEvents(start, events) && j < |events| && !FallsBack(rate, burst, events[j])
    ensures var calls := WholeCalls(ScriptCalls(rate, burst, events[..j + 1]));
      var reserved := Reserves(ReserveRun(NewLimiter(rate, burst, start), events[..j]), events[j]);
      && calls != [] && calls[|calls| - 1] == Call(events[j].now.Floor as real, events[j].n as real)
      && (rate > 0 ==> (reserved <==> Allowed(rate as real, burst as real, 0.0, calls, |calls| - 1)))
      && (rate <= 0 ==> !reserved)
  {
    var requests := ScriptCalls(rate, burst, events[..j + 1]);
    AnsweredByRun(rate, burst, start, events, j);
    ScriptCallsAreTimely(rate, burst, start, events[..j + 1]);
    NonnegativeNeverNotice(rate, burst, requests);
    if rate > 0 {
      PlainIsLocal(rate, burst, requests);
    } else {
      ScriptRunsIff(rate, burst);
      RunSplits(rate, burst, start, events[..j]);
      NegativeBurstDenies(ReserveRun(NewLimiter(rate, burst, start), events[..j]), events[j]);
    }
  }

  /** An answered call gets the last answer of the script's run over the requests that reached it. */
  lemma AnsweredByRun(rate: int, burst: int, start: real, events: seq<Event>, j: nat)
    requires j < |events| && !FallsBack(rate, burst, events[j])
    ensures var requests := ScriptCalls(rate, burst, events[..j + 1]);
      var answers := ScriptRun(rate, burst, requests).1;
      && requests != [] && requests[|requests| - 1] == RequestOf(events[j]) && answers != []
      && answers[|answers| - 1] == Reserves(ReserveRun(NewLimiter(rate, burst, start), events[..j]), events[j])
  {
    var requests := ScriptCalls(rate, burst, events[..j + 1]);
    var k := |requests| - 1;
    assert events[..j + 1][..j] == events[..j];
    assert requests[..k] == ScriptCalls(rate, burst, events[..j]);
    RunSplits(rate, burst, start, events[..j]);
    ScriptAnswersEach(rate, burst, requests);
  }

  // ---- The fail-over bound ----------------------------------------------------------------

  /** Everything needed about a limiter before the span under study begins. */
  ghost predicate Sound(l: Limiter, p: Plain, clock: real) {
    && 0 <= l.rate && 0 <= l.burst && 0.0 <= clock
    && 0.0 <= l.local.tokens && l.local.last <= clock
    && (ScriptRuns(l.rate, l.burst) ==> Mirrors(l.rate, l.burst, l.keys, p, clock.Floor))
  }

  /** During a span that began at `from`: what is left in the local bucket plus what it handed out
      is covered by one full bucket and the refill since `from`. */
  ghost predicate LocalCovered(l: Limiter, from: real, handed: int) {
    handed > 0 ==>
      l.local.tokens + handed as real <= Grown(l.rate as real, l.burst as real, l.local.last - from)
  }

  /** The same of the script's bucket, in whole seconds. */
  ghost predicate ScriptCovered(l: Limiter, p: Plain, from: real, handed: int) {
    handed > 0 ==>
      && ScriptRuns(l.rate, l.burst)
      && p.tokens + handed <= l.burst + (p.ts - from.Floor) * l.rate
  }

  function PlainAfter(l: Limiter, p: Plain, e: Event): Plain {
    if !e.redis.NotRun? && ScriptRuns(l.rate, l.burst)
    then PlainStep(l.rate, l.burst, p, e.now.Floor, e.n) else p
  }

  lemma FloorMono(a: real, b: real)
    requires a <= b
    ensures a.Floor <= b.Floor
    ensures 0.0 <= a ==> 0 <= a.Floor
    ensures (b.Floor - a.Floor) as real <= b - a + 1.0
  {
  }

  lemma MulMonoReal(a: real, b: real, c: real)
    requires a <= b && 0.0 <= c
    ensures a * c <= b * c
  {
    assert (b - a) * c >= 0.0;
  }

  lemma LocalStepNonNegative(rate: real, burst: real, b: Bucket, call: Call)
    requires 0.0 <= rate && 0.0 <= burst && 0.0 <= b.tokens && b.last <= call.now
    ensures 0.0 <= LocalStep(rate, burst, b, call).tokens
  {
    GrownMono(rate, b.tokens, 0.0, call.now - b.last);
    GrownAtOnce(rate, b.tokens);
  }

  lemma {:induction false} CastProduct(a: int, b: nat)
    ensures (a * b) as real == a as real * b as real
  {
    if b > 0 {
      CastProduct(a, b - 1);
      MulAdd(b - 1, 1, a);
      assert (a * b) as real == (a * (b - 1)) as real + a as real;
    }
  }

  lemma LaterClockMirrors(rate: int, capacity: int, keys: Keys, p: Plain, clock: int, later: int)
    requires ScriptRuns(rate, capacity) && rate > 0 && Mirrors(rate, capacity, keys, p, clock) && clock <= later
    ensures Mirrors(rate, capacity, keys, p, later)
  {
    MulMono(clock - p.ts, later - p.ts, rate);
  }

  lemma StepKeepsSound(l: Limiter, p: Plain, clock: real, e: Event)
    requires Sound(l, p, clock) && clock <= e.now
    ensures Sound(ReserveStep(l, e), PlainAfter(l, p, e), e.now)
  {
    FloorMono(clock, e.now);
    LocalStepNonNegative(l.rate as real, l.burst as real, l.local, CallOf(e));
    if ScriptRuns(l.rate, l.burst) {
      if e.redis.NotRun? {
        LaterClockMirrors(l.rate, l.burst, l.keys, p, clock.Floor, e.now.Floor);
      } else {
        ScriptStepMirrors(l.rate, l.burst, l.keys, p, clock.Floor, RequestOf(e));
      }
    }
  }

  lemma LocalStepCovered(l: Limiter, from: real, byLocal: nat, now: real, n: nat)
    requires from <= now && 0 <= l.rate
    requires byLocal > 0 ==>
      l.local.tokens + byLocal as real <= Grown(l.rate as real, l.burst as real, l.local.last - from)
    ensures var rate, burst := l.rate as real, l.burst as real;
      var next := LocalStep(rate, burst, l.local, Call(now, n as real));
      var total := byLocal + if LocalAllows(rate, burst, l.local, Call(now, n as real)) then n else 0;
      total > 0 ==> next.tokens + total as real <= Grown(rate, burst, next.last - from)
  {
    var rate, burst, last := l.rate as real, l.burst as real, l.local.last;
    GrownMono(rate, burst, 0.0, now - from);
    GrownAtOnce(rate, burst);
    assert (last - from) + (now - last) == now - from;
    GrownInTwo(rate, burst, last - from, now - last);
    if byLocal > 0 {
      var spare := Grown(rate, burst, last - from) - byLocal as real - l.local.tokens;
      GrownShift(rate, l.local.tokens, spare + byLocal as real, now - last);
    }
  }

  lemma PlainStepCovered(l: Limiter, p: Plain, from: int, byScript: nat, now: int, n: nat, delivered: bool)
    requires p.ts <= now && from <= now && 0 <= l.rate
    requires byScript > 0 ==> p.tokens + byScript <= l.burst + (p.ts - from) * l.rate
    ensures var next := PlainStep(l.rate, l.burst, p, now, n);
      var total := byScript + if delivered && PlainFilled(l.rate, l.burst, p, now) >= n then n else 0;
      total > 0 ==> next.tokens + total <= l.burst + (next.ts - from) * l.rate
  {
    MulAdd(now - p.ts, p.ts - from, l.rate);
    MulMono(0, now - from, l.rate);
  }

  lemma StepKeepsLocalCovered(l: Limiter, from: real, byLocal: nat, e: Event)
    requires from <= e.now && 0 <= e.n && 0 <= l.rate && LocalCovered(l, from, byLocal)
    ensures LocalCovered(ReserveStep(l, e), from,
                         byLocal + if Reserves(l, e) && !UsesScript(l, e) then e.n else 0)
  {
    if !UsesScript(l, e) {
      LocalStepCovered(l, from, byLocal, e.now, e.n);
    }
  }

  lemma StepKeepsScriptCovered(l: Limiter, p: Plain, clock: real, from: real, byScript: nat, e: Event)
    requires Sound(l, p, clock) && 0 <= e.n && ScriptCovered(l, p, from, byScript)
    requires 0.0 <= from <= e.now && clock <= e.now
    ensures ScriptCovered(ReserveStep(l, e), PlainAfter(l, p, e), from,
                          byScript + if Reserves(l, e) && UsesScript(l, e) then e.n else 0)
  {
    FloorMono(clock, e.now);
    FloorMono(from, e.now);
    if !e.redis.NotRun? && ScriptRuns(l.rate, l.burst) {
      ScriptStepMirrors(l.rate, l.burst, l.keys, p, clock.Floor, RequestOf(e));
      PlainStepCovered(l, p, from.Floor, byScript, e.now.Floor, e.n, UsesScript(l, e));
    }
  }

  lemma {:induction false} RunIsSound(rate: nat, burst: nat, start: real, events: seq<Event>) returns (p: Plain)
    requires TimelyEvents(start, events)
    ensures var l := ReserveRun(NewLimiter(rate, burst, start), events);
      && l.rate == rate && l.burst == burst
      && Sound(l, p, if events == [] then start else events[|events| - 1].now)
  {
    if events == [] {
      p := Plain(burst, 0);
      FloorMono(0.0, start);
      MulMono(0, start.Floor, rate);
    } else {
      var before, e := events[..|events| - 1], events[|events| - 1];
      var p' := RunIsSound(rate, burst, start, before);
      var l := ReserveRun(NewLimiter(rate, burst, start), before);
      p := PlainAfter(l, p', e);
      StepKeepsSound(l, p', if before == [] then start else before[|before| - 1].now, e);
    }
  }

  /** Both buckets are sound at `clock`, and cover what they have handed out since `from`. */
  ghost predicate Covered(l: Limiter, p: Plain, clock: real, from: real, local: int, script: int) {
    && Sound(l, p, clock) && 0 <= local && 0 <= script
    && LocalCovered(l, from, local) && ScriptCovered(l, p, from, script)
  }

  lemma StepKeepsCovered(l: Limiter, p: Plain, clock: real, from: real, local: int, script: int, e: Event)
    requires Covered(l, p, clock, from, local, script)
    requires 0.0 <= from <= e.now && clock <= e.now && 0 <= e.n
    ensures Covered(ReserveStep(l, e), PlainAfter(l, p, e), e.now, from,
                    local + (if Reserves(l, e) && !UsesScript(l, e) then e.n else 0),
                    script + (if Reserves(l, e) && UsesScript(l, e) then e.n else 0))
  {
    StepKeepsSound(l, p, clock, e);
    StepKeepsLocalCovered(l, from, local, e);
    StepKeepsScriptCovered(l, p, clock, from, script, e);
  }

  lemma HandedStep(init: Limiter, events: seq<Event>, i: nat, j: nat)
    requires i < j <= |events|
    ensures var l, e := ReserveRun(init, events[..j - 1]), events[j - 1];
      && ReserveRun(init, events[..j]) == ReserveStep(l, e)
      && Handed(init, events, i, j, false)
           == Handed(init, events, i, j - 1, false) + (if Reserves(l, e) && !UsesScript(l, e) then e.n else 0)
      && Handed(init, events, i, j, true)
           == Handed(init, events, i, j - 1, true) + (if Reserves(l, e) && UsesScript(l, e) then e.n else 0)
  {
    assert events[..j][..j - 1] == events[..j - 1];
  }

  /** The span from call i on is covered up to, not including, call j. */
  ghost predicate CoveredUpTo(init: Limiter, p: Plain, clock: real, events: seq<Event>, i: nat, j: nat)
    requires i <= j <= |events| && i < |events|
  {
    Covered(ReserveRun(init, events[..j]), p, clock, events[i].now,
            Handed(init, events, i, j, false), Handed(init, events, i, j, true))
  }

  lemma NextIsCovered(init: Limiter, p: Plain, clock: real, events: seq<Event>, i: nat, j: nat) returns (p': Plain)
    requires i <= j < |events| && CoveredUpTo(init, p, clock, events, i, j)
    requires 0.0 <= events[i].now <= events[j].now && clock <= events[j].now && 0 <= events[j].n
    ensures CoveredUpTo(init, p', events[j].now, events, i, j + 1)
  {
    var l, e := ReserveRun(init, events[..j]), events[j];
    p' := PlainAfter(l, p, e);
    StepKeepsCovered(l, p, clock, events[i].now, Handed(init, events, i, j, false), Handed(init, events, i, j, true), e);
    HandedStep(init, events, i, j + 1);
  }

  lemma {:induction false} SpanIsCovered(rate: nat, burst: nat, start: real, events: seq<Event>, i: nat, j: nat)
      returns (p: Plain)
    requires TimelyEvents(start, events) && i < j <= |events|
    ensures CoveredUpTo(NewLimiter(rate, burst, start), p, events[j - 1].now, events, i, j)
    decreases j
  {
    var clock;
    if i == j - 1 {
      p, clock := SpanStarts(rate, burst, start, events, i);
    } else {
      p := SpanIsCovered(rate, burst, start, events, i, j - 1);
      clock := events[j - 2].now;
    }
    p := NextIsCovered(NewLimiter(rate, burst, start), p, clock, events, i, j - 1);
  }

  lemma SpanStarts(rate: nat, burst: nat, start: real, events: seq<Event>, i: nat) returns (p: Plain, clock: real)
    requires TimelyEvents(start, events) && i < |events|
    ensures clock <= events[i].now && CoveredUpTo(NewLimiter(rate, burst, start), p, clock, events, i, i)
  {
    var before := events[..i];
    assert forall k | 0 <= k < |before| :: before[k] == events[k];
    p := RunIsSound(rate, burst, start, before);
    clock := if before == [] then start else before[|before| - 1].now;
  }

  function FailoverLimit(rate: real, burst: real, span: real): real {
    2.0 * burst + rate * (2.0 * span + 1.0)
  }

  lemma RegularFailoverBound(rate: nat, burst: nat, start: real, events: seq<Event>, i: nat, j: nat)
    requires TimelyEvents(start, events) && i < j <= |events|
    ensures var init := NewLimiter(rate, burst, start);
      (Handed(init, events, i, j, false) + Handed(init, events, i, j, true)) as real
        <= FailoverLimit(rate as real, burst as real, events[j - 1].now - events[i].now)
  {
    var p := SpanIsCovered(rate, burst, start, events, i, j);
    var init := NewLimiter(rate, burst, start);
    var l := ReserveRun(init, events[..j]);
    RunKeepsConfig(init, events[..j]);
    var from, to := events[i].now, events[j - 1].now;
    var local, script := Handed(init, events, i, j, false), Handed(init, events, i, j, true);
    BothSpans(rate, burst, l, p, from, to, local, script);
  }

  /** A limiter with a negative burst grants nothing, whoever answers. */
  lemma NegativeBurstDenies(l: Limiter, e: Event)
    requires l.burst < 0 && 0 <= e.n
    ensures !Reserves(l, e)
  {
  }

  lemma {:induction false} RunKeepsConfig(l: Limiter, events: seq<Event>)
    ensures var l' := ReserveRun(l, events); l'.rate == l.rate && l'.burst == l.burst
  {
    if events != [] {
      RunKeepsConfig(l, events[..|events| - 1]);
    }
  }

  lemma {:induction false} NothingHanded(l: Limiter, events: seq<Event>, i: nat, j: nat, byScript: bool)
    requires l.burst < 0 && i <= j <= |events| && forall k | 0 <= k < |events| :: 0 <= events[k].n
    ensures Handed(l, events, i, j, byScript) == 0
    decreases j - i
  {
    if i < j {
      NothingHanded(l, events, i, j - 1, byScript);
      RunKeepsConfig(l, events[..j - 1]);
      NegativeBurstDenies(ReserveRun(l, events[..j - 1]), events[j - 1]);
    }
  }

  /** With a negative rate only the local bucket answers, and it never gains a token. */
  lemma LocalOnlyShrinks(l: Limiter, e: Event)
    requires l.rate < 0 <= l.burst && l.local.tokens <= l.burst as real && l.local.last <= e.now && 0 <= e.n
    ensures !UsesScript(l, e)
    ensures var l' := ReserveStep(l, e);
      && l'.local.last == e.now && l'.local.tokens <= l.burst as real
      && l'.local.tokens + (if Reserves(l, e) then e.n as real else 0.0) <= l.local.tokens
      && (Reserves(l, e) ==> e.n as real <= l.local.tokens)
  {
    ScriptRunsIff(l.rate, l.burst);
    GrownShrinks(l.rate as real, l.local.tokens, e.now - l.local.last);
  }

  lemma {:induction false} ShrinkingSpan(rate: int, burst: nat, start: real, events: seq<Event>, i: nat, j: nat)
    requires rate < 0 && TimelyEvents(start, events) && i <= j <= |events|
    ensures var init := NewLimiter(rate, burst, start);
      var l := ReserveRun(init, events[..j]);
      && l.rate == rate && l.burst == burst
      && l.local.last == (if j == 0 then start else events[j - 1].now) && l.local.tokens <= burst as real
      && Handed(init, events, i, j, true) == 0 && 0 <= Handed(init, events, i, j, false) <= burst
      && l.local.tokens + Handed(init, events, i, j, false) as real <= burst as real
    decreases j
  {
    if j > 0 {
      ShrinkingSpan(rate, burst, start, events, if i < j then i else j - 1, j - 1);
      assert events[..j][..j - 1] == events[..j - 1];
      LocalOnlyShrinks(ReserveRun(NewLimiter(rate, burst, start), events[..j - 1]), events[j - 1]);
    }
  }

  /** Failover bound: with Redis failing on any subset of the calls - before or after the script
      ran - the calls of a span of length d are together handed at most
      2*burst + rate*(2*d + 1) tokens; a negative rate or burst counts as zero. */
  lemma FailoverBound(rate: int, burst: int, start: real, events: seq<Event>, i: nat, j: nat)
    requires TimelyEvents(start, events) && i < j <= |events|
    ensures var init := NewLimiter(rate, burst, start);
      (Handed(init, events, i, j, false) + Handed(init, events, i, j, true)) as real
        <= FailoverLimit(Max(0, rate) as real, Max(0, burst) as real, events[j - 1].now - events[i].now)
  {
    if rate >= 0 && burst >= 0 {
      RegularFailoverBound(rate, burst, start, events, i, j);
    } else {
      LimitCoversBurst(Max(0, rate) as real, Max(0, burst) as real, events[j - 1].now - events[i].now);
      OddConfigHands(rate, burst, start, events, i, j);
    }
  }

  lemma OddConfigHands(rate: int, burst: int, start: real, events: seq<Event>, i: nat, j: nat)
    requires TimelyEvents(start, events) && i <= j <= |events| && (rate < 0 || burst < 0)
    ensures var init := NewLimiter(rate, burst, start);
      Handed(init, events, i, j, false) + Handed(init, events, i, j, true) <= Max(0, burst)
  {
    if burst >= 0 {
      ShrinkingSpan(rate, burst, start, events, i, j);
    } else {
      NothingHanded(NewLimiter(rate, burst, start), events, i, j, false);
      NothingHanded(NewLimiter(rate, burst, start), events, i, j, true);
    }
  }

  lemma LimitCoversBurst(rate: real, burst: real, d: real)
    requires 0.0 <= rate && 0.0 <= burst && 0.0 <= d
    ensures FailoverLimit(rate, burst, d) >= burst
  {
    assert rate * (2.0 * d + 1.0) >= 0.0;
  }

  lemma BothSpans(rate: nat, burst: nat, l: Limiter, p: Plain, from: real, to: real, local: nat, script: nat)
    requires l.rate == rate && l.burst == burst
    requires 0.0 <= from <= to && Sound(l, p, to)
    requires LocalCovered(l, from, local) && ScriptCovered(l, p, from, script)
    ensures (local + script) as real <= FailoverLimit(rate as real, burst as real, to - from)
  {
    LocalSpan(l, p, from, to, local);
    ScriptSpan(l, p, from, to, script);
    AddSpans(l.rate as real, l.burst as real, to - from);
  }

  lemma AddSpans(rate: real, burst: real, d: real)
    ensures Grown(rate, burst, d) + Grown(rate, burst, d + 1.0) == FailoverLimit(rate, burst, d)
  {
  }

  lemma LocalSpan(l: Limiter, p: Plain, from: real, to: real, handed: nat)
    requires from <= to && Sound(l, p, to) && LocalCovered(l, from, handed)
    ensures handed as real <= Grown(l.rate as real, l.burst as real, to - from)
  {
    GrownMono(l.rate as real, l.burst as real, l.local.last - from, to - from);
    GrownMono(l.rate as real, l.burst as real, 0.0, to - from);
    GrownAtOnce(l.rate as real, l.burst as real);
  }

  lemma ScriptSpan(l: Limiter, p: Plain, from: real, to: real, handed: nat)
    requires 0.0 <= from <= to && Sound(l, p, to) && ScriptCovered(l, p, from, handed)
    ensures handed as real <= Grown(l.rate as real, l.burst as real, to - from + 1.0)
  {
    FloorMono(from, to);
    var d := to.Floor - from.Floor;
    MulMono(0, d, l.rate);
    if handed > 0 {
      MulMono(p.ts - from.Floor, d, l.rate);
    }
    WholeSeconds(handed, l.burst, d, l.rate, to - from + 1.0);
  }

  lemma WholeSeconds(handed: nat, burst: nat, d: nat, rate: nat, seconds: real)
    requires handed <= burst + d * rate && d as real <= seconds
    ensures handed as real <= Grown(rate as real, burst as real, seconds)
  {
    CastProduct(d, rate);
    assert (burst + d * rate) as real == burst as real + (d * rate) as real;
    MulMonoReal(d as real, seconds, rate as real);
  }

  // ---- The objects ------------------------------------------------------------------------

  /** The two keys of one limiter on the Redis server. */
  class RedisKeys {
    var keys: Keys

    constructor ()
      ensures keys == NO_KEYS
    {
      keys := NO_KEYS;
    }

    /** One atomic evaluation of the script; `None` is a script error, which changes nothing. */
    method Eval(rate: int, capacity: int, r: Request) returns (answer: Option<bool>)
      modifies this
      ensures ScriptRuns(rate, capacity) ==>
        && answer == Some(ScriptAllows(rate, capacity, old(keys), r))
        && keys == ScriptStep(rate, capacity, old(keys), r)
      ensures !ScriptRuns(rate, capacity) ==> answer == None && keys == old(keys)
    {
      if rate == 0 {
        return None;
      }
      var ttl := FloorDiv(2 * capacity, rate);
      if ttl < 1 {
        return None;
      }
      var tokens, ts := Found(keys.tokens, r.now, r.tokensGone), Found(keys.ts, r.now, r.tsGone);
      var lastTokens := capacity;
      if tokens.Some? {
        lastTokens := tokens.value.value;
      }
      var lastRefreshed := 0;
      if ts.Some? {
        lastRefreshed := ts.value.value;
      }
      var delta := Max(0, r.now - lastRefreshed);
      var filled := Min(capacity, lastTokens + delta * rate);
      var allowed := filled >= r.n;
      var newTokens := filled;
      if allowed {
        newTokens := filled - r.n;
      }
      keys := Keys(Some(Cell(newTokens, r.now, ttl)), Some(Cell(r.now, r.now, ttl)));
      answer := Some(allowed);
    }
  }

  class TokenLimiter {
    const rate: int
    const burst: int
    const server: RedisKeys
    var localTokens: real
    var localLast: real

    constructor (rate: int, burst: int, server: RedisKeys, now: real)
      ensures this.rate == rate && this.burst == burst && this.server == server
      ensures localTokens == burst as real && localLast == now
    {
      this.rate := rate;
      this.burst := burst;
      this.server := server;
      localTokens := burst as real;
      localLast := now;
    }

    function Model(): Limiter
      reads this, server
    {
      Limiter(rate, burst, Bucket(localTokens, localLast), server.keys)
    }

    method LocalAllow(now: real, n: real) returns (ok: bool)
      modifies this
      ensures ok == LocalAllows(rate as real, burst as real, old(Bucket(localTokens, localLast)), Call(now, n))
      ensures Bucket(localTokens, localLast)
        == LocalStep(rate as real, burst as real, old(Bucket(localTokens, localLast)), Call(now, n))
    {
      var elapsed := now - localLast;
      localTokens := localTokens + elapsed * rate as real;
      if localTokens > burst as real {
        localTokens := burst as real;
      }
      localLast := now;
      if localTokens >= n {
        localTokens := localTokens - n;
        return true;
      }
      return false;
    }

    /** One reservation; the event says what becomes of the call to Redis. */
    method ReserveN(e: Event) returns (ok: bool)
      modifies this, server
      ensures ok == Reserves(old(Model()), e)
      ensures Model() == ReserveStep(old(Model()), e)
    {
      if e.redis.NotRun? {
        ok := LocalAllow(e.now, e.n as real);
        return;
      }
      var answer := server.Eval(rate, burst, RequestOf(e));
      if e.redis.AnswerLost? || answer.None? {
        ok := LocalAllow(e.now, e.n as real);
        return;
      }
      ok := answer.value;
    }
  }
}
