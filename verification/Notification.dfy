/** The retry notifications: keys that expire, any number of subscribers told about each expiry,
    and a lock per value that keeps a chain of retries with one subscriber.

    Every Redis command is one atomic step; steps of different subscribers interleave freely, a
    command may fail before or after it took effect, and announcements may be lost. */
module Notification {
  import opened Common
  import opened Decimal
  import opened PayloadCodec

  /** A goroutine of a node: its lock token is `node-id`. */
  datatype Worker = Worker(node: string, id: nat)

  function Token(w: Worker): string {
    Tagged(w.node, w.id)
  }

  lemma TokensAreDistinct(a: Worker, b: Worker)
    requires Token(a) == Token(b)
    ensures a == b
  {
    TaggedInjective(a.node, a.id, b.node, b.id);
  }

  datatype Pc =
    | Idle
    | Locking(p: Payload)     // about to SETNX the lock
    | Checking(p: Payload)    // SETNX did not report success, about to GET the lock
    | Handling(p: Payload)    // holds the lock, inside the handler
    | Putting(p: Payload)     // about to arm the next attempt
    | Unlocking(p: Payload)   // about to DEL the lock

  datatype Subscriber = Subscriber(worker: Worker, inbox: seq<string>, pc: Pc)

  /** One call of the user's handler. */
  datatype Call = Call(sub: nat, p: Payload)

  /** `locks` and `armed` are what Redis holds: lock tokens per value, and encoded payloads waiting
      to expire. `calls` remembers every handler call. */
  datatype State = State(
    locks: map<string, string>,
    armed: set<string>,
    subs: seq<Subscriber>,
    calls: seq<Call>)

  datatype Action =
    | Put(value: string)                       // a client arms a fresh payload
    | Expire(key: string, told: set<nat>)      // a key expires; some subscribers hear of it
    | Receive(i: nat)
    | TryLock(i: nat, fate: Fate)
    | CheckLock(i: nat, fate: Fate)
    | Handle(i: nat, putNext: bool)
    | PutNext(i: nat, fate: Fate)
    | Unlock(i: nat, fate: Fate)

  /** The fixed parts: the channel prefix up to the last colon, and the number of retry policies. */
  datatype Config = Config(prefix: string, policies: nat)

  function Channel(c: Config, key: string): string {
    c.prefix + COLON + key
  }

  // ---- Redis commands -------------------------------------------------------------------------

  predicate Takes(locks: map<string, string>, value: string, fate: Fate) {
    !fate.NotDone? && value !in locks
  }

  function LocksAfter(locks: map<string, string>, value: string, token: string, fate: Fate): map<string, string> {
    if Takes(locks, value, fate) then locks[value := token] else locks
  }

  predicate Finds(locks: map<string, string>, value: string, token: string, fate: Fate) {
    fate.Done? && value in locks && locks[value] == token
  }

  /** What the loop does after the handler: arm the next attempt, or release the lock. */
  function AfterHandler(c: Config, p: Payload, putNext: bool): Pc {
    if putNext && p.count < c.policies then Putting(p) else Unlocking(p)
  }

  // ---- The system ----------------------------------------------------------------------------------

  /** There is a delay for this count; looking one up that is not there is a panic, and nothing follows. */
  predicate HasPolicy(c: Config, count: int) {
    0 <= count < c.policies
  }

  predicate Enabled(c: Config, s: State, a: Action) {
    match a
    case Put(_) => HasPolicy(c, 0)
    case Expire(key, _) => key in s.armed
    case Receive(i) => i < |s.subs| && s.subs[i].pc.Idle? && s.subs[i].inbox != []
    case TryLock(i, _) => i < |s.subs| && s.subs[i].pc.Locking?
    case CheckLock(i, _) => i < |s.subs| && s.subs[i].pc.Checking?
    case Handle(i, _) => i < |s.subs| && s.subs[i].pc.Handling?
    case PutNext(i, _) => i < |s.subs| && s.subs[i].pc.Putting? && HasPolicy(c, s.subs[i].pc.p.count)
    case Unlock(i, _) => i < |s.subs| && s.subs[i].pc.Unlocking?
  }

  function Moved(s: State, i: nat, pc: Pc): State
    requires i < |s.subs|
  {
    s.(subs := s.subs[i := s.subs[i].(pc := pc)])
  }

  function EnterHandler(s: State, i: nat, p: Payload): State
    requires i < |s.subs|
  {
    Moved(s, i, Handling(p)).(calls := s.calls + [Call(i, p)])
  }

  function Told(c: Config, subs: seq<Subscriber>, key: string, told: set<nat>): seq<Subscriber> {
    seq(|subs|, i requires 0 <= i < |subs| =>
      if i in told then subs[i].(inbox := subs[i].inbox + [Channel(c, key)]) else subs[i])
  }

  function Step(c: Config, s: State, a: Action): State
    requires Enabled(c, s, a)
  {
    match a
    case Put(value) => s.(armed := s.armed + {Encode(Payload(value, 0))})
    case Expire(key, told) => s.(armed := s.armed - {key}, subs := Told(c, s.subs, key, told))
    case Receive(i) =>
      var sub := s.subs[i];
      var decoded := Decode(sub.inbox[0]);
      var pc := if decoded.Err? then Idle else Locking(decoded.value.(count := decoded.value.count + 1));
      s.(subs := s.subs[i := sub.(inbox := sub.inbox[1..], pc := pc)])
    case TryLock(i, fate) =>
      var p, token := s.subs[i].pc.p, Token(s.subs[i].worker);
      var s' := s.(locks := LocksAfter(s.locks, p.value, token, fate));
      if Takes(s.locks, p.value, fate) && fate.Done? then EnterHandler(s', i, p) else Moved(s', i, Checking(p))
    case CheckLock(i, fate) =>
      var p := s.subs[i].pc.p;
      if Finds(s.locks, p.value, Token(s.subs[i].worker), fate) then EnterHandler(s, i, p) else Moved(s, i, Idle)
    case Handle(i, putNext) => Moved(s, i, AfterHandler(c, s.subs[i].pc.p, putNext))
    case PutNext(i, fate) =>
      var s' := if fate.NotDone? then s else s.(armed := s.armed + {Encode(s.subs[i].pc.p)});
      Moved(s', i, Idle)
    case Unlock(i, fate) =>
      var s' := if fate.NotDone? then s else s.(locks := s.locks - {s.subs[i].pc.p.value});
      Moved(s', i, Idle)
  }

  function Initial(workers: seq<Worker>): State {
    State(map[], {}, seq(|workers|, i requires 0 <= i < |workers| => Subscriber(workers[i], [], Idle)), [])
  }

  predicate IsRun(c: Config, s: State, actions: seq<Action>)
    decreases |actions|
  {
    actions == [] || (Enabled(c, s, actions[0]) && IsRun(c, Step(c, s, actions[0]), actions[1..]))
  }

  function After(c: Config, s: State, actions: seq<Action>): State
    requires IsRun(c, s, actions)
    decreases |actions|
  {
    if actions == [] then s else After(c, Step(c, s, actions[0]), actions[1..])
  }

  predicate Distinct(workers: seq<Worker>) {
    forall i, j | 0 <= i < j < |workers| :: workers[i] != workers[j]
  }

  // ---- The lock ---------------------------------------------------------------------------------------

  /** Subscriber `i` is between a successful lock of `value` and the end of its turn. */
  predicate Critical(s: State, i: nat, value: string)
    requires i < |s.subs|
  {
    var pc := s.subs[i].pc;
    (pc.Handling? || pc.Putting? || pc.Unlocking?) && pc.p.value == value
  }

  predicate HeldBy(s: State, value: string, w: Worker) {
    value in s.locks && s.locks[value] == Token(w)
  }

  ghost predicate LockInv(s: State, workers: seq<Worker>) {
    && |s.subs| == |workers|
    && (forall i | 0 <= i < |s.subs| :: s.subs[i].worker == workers[i])
    && (forall i, value | 0 <= i < |s.subs| && Critical(s, i, value) :: HeldBy(s, value, workers[i]))
  }

  lemma CriticalStaysHeld(c: Config, s: State, workers: seq<Worker>, a: Action, i: nat, value: string)
    requires Distinct(workers) && LockInv(s, workers) && Enabled(c, s, a) && i < |s.subs|
    requires Critical(s, i, value) && Critical(Step(c, s, a), i, value)
    ensures HeldBy(Step(c, s, a), value, workers[i])
  {
    assert HeldBy(s, value, workers[i]);
    if a.Unlock? && a.i != i && s.subs[a.i].pc.p.value == value {
      assert Critical(s, a.i, value) && HeldBy(s, value, workers[a.i]);
      TokensAreDistinct(workers[a.i], workers[i]);
    }
  }

  lemma StepKeepsLockInv(c: Config, s: State, workers: seq<Worker>, a: Action)
    requires Distinct(workers) && LockInv(s, workers) && Enabled(c, s, a)
    ensures LockInv(Step(c, s, a), workers)
  {
    var s' := Step(c, s, a);
    forall i, value | 0 <= i < |s'.subs| && Critical(s', i, value)
      ensures HeldBy(s', value, workers[i])
    {
      if Critical(s, i, value) {
        CriticalStaysHeld(c, s, workers, a, i, value);
      }
    }
  }

  lemma {:induction false} RunKeepsLockInv(c: Config, s: State, workers: seq<Worker>, actions: seq<Action>)
    requires Distinct(workers) && LockInv(s, workers) && IsRun(c, s, actions)
    ensures LockInv(After(c, s, actions), workers)
    decreases |actions|
  {
    if actions != [] {
      StepKeepsLockInv(c, s, workers, actions[0]);
      RunKeepsLockInv(c, Step(c, s, actions[0]), workers, actions[1..]);
    }
  }

  /** At any moment at most one subscriber is between its lock and its unlock of a value. */
  lemma AtMostOneHandler(c: Config, workers: seq<Worker>, actions: seq<Action>, i: nat, j: nat, value: string)
    requires Distinct(workers) && IsRun(c, Initial(workers), actions)
    requires var s := After(c, Initial(workers), actions);
      i < |s.subs| && j < |s.subs| && Critical(s, i, value) && Critical(s, j, value)
    ensures i == j
  {
    RunKeepsLockInv(c, Initial(workers), workers, actions);
    var s := After(c, Initial(workers), actions);
    assert HeldBy(s, value, workers[i]) && HeldBy(s, value, workers[j]);
    TokensAreDistinct(workers[i], workers[j]);
  }

  predicate Unlocks(s: State, a: Action, value: string) {
    && a.Unlock? && !a.fate.NotDone?
    && a.i < |s.subs| && s.subs[a.i].pc.Unlocking? && s.subs[a.i].pc.p.value == value
  }

  /** No step of the run releases the lock of `value`: its retry chain stays open. */
  predicate ChainStaysOpen(c: Config, s: State, actions: seq<Action>, value: string)
    requires IsRun(c, s, actions)
    decreases |actions|
  {
    actions == [] ||
      (!Unlocks(s, actions[0], value) && ChainStaysOpen(c, Step(c, s, actions[0]), actions[1..], value))
  }

  /** While a chain stays open every attempt for its value is handled by the subscriber that
      opened it. */
  lemma {:induction false} ChainStaysWithHolder(c: Config, s: State, workers: seq<Worker>, actions: seq<Action>,
                                                holder: nat, value: string)
    requires Distinct(workers) && LockInv(s, workers) && IsRun(c, s, actions)
    requires holder < |workers| && HeldBy(s, value, workers[holder])
    requires ChainStaysOpen(c, s, actions, value)
    ensures var s' := After(c, s, actions);
      && HeldBy(s', value, workers[holder])
      && s.calls <= s'.calls
      && forall k | |s.calls| <= k < |s'.calls| && s'.calls[k].p.value == value :: s'.calls[k].sub == holder
    decreases |actions|
  {
    if actions != [] {
      var a := actions[0];
      var s1 := Step(c, s, a);
      StepKeepsLockInv(c, s, workers, a);
      if |s1.calls| > |s.calls| {
        var call := s1.calls[|s.calls|];
        assert Critical(s1, call.sub, call.p.value);
        assert HeldBy(s1, call.p.value, workers[call.sub]);
        if call.p.value == value {
          TokensAreDistinct(workers[call.sub], workers[holder]);
        }
      }
      ChainStaysWithHolder(c, s1, workers, actions[1..], holder, value);
    }
  }

  // ---- Lookups in the policies ------------------------------------------------------------------------

  /** What a client's put of `value` is read back as when its key expires. */
  function FirstPayload(c: Config, value: string): Payload {
    EncodedDecodes(c.prefix, Payload(value, 0));
    Decode(Channel(c, Encode(Payload(value, 0)))).value
  }

  lemma FirstOfClean(c: Config, value: string)
    requires Clean(value)
    ensures FirstPayload(c, value) == Payload(value, 0)
  {
    RoundTripIff(c.prefix, Payload(value, 0));
  }

  /** Payloads in hand come out of a channel name, so their values are clean. */
  ghost predicate CleanInv(s: State) {
    forall i | 0 <= i < |s.subs| && !s.subs[i].pc.Idle? :: Clean(s.subs[i].pc.p.value)
  }

  lemma StepKeepsClean(c: Config, s: State, a: Action)
    requires CleanInv(s) && Enabled(c, s, a)
    ensures CleanInv(Step(c, s, a))
  {
    if a.Receive? && Decode(s.subs[a.i].inbox[0]).Ok? {
      DecodedIsClean(s.subs[a.i].inbox[0]);
    }
  }

  predicate CountOk(channel: string) {
    Decode(channel).Ok? ==> Decode(channel).value.count >= -1
  }

  predicate SubscriberOk(c: Config, sub: Subscriber) {
    && (sub.pc.Idle? || (sub.pc.p.count >= 0 && (sub.pc.Putting? ==> sub.pc.p.count < c.policies)))
    && forall k | 0 <= k < |sub.inbox| :: CountOk(sub.inbox[k])
  }

  ghost predicate RangeInv(c: Config, s: State) {
    && CleanInv(s)
    && (forall key | key in s.armed :: CountOk(Channel(c, key)))
    && (forall i | 0 <= i < |s.subs| :: SubscriberOk(c, s.subs[i]))
  }

  lemma StepKeepsRange(c: Config, s: State, a: Action)
    requires c.policies < LIMIT && RangeInv(c, s) && Enabled(c, s, a)
    requires a.Put? ==> FirstPayload(c, a.value).count >= -1
    ensures RangeInv(c, Step(c, s, a))
  {
    var s' := Step(c, s, a);
    StepKeepsClean(c, s, a);
    forall key | key in s'.armed ensures CountOk(Channel(c, key)) {
      if key !in s.armed && a.PutNext? {
        RoundTripIff(c.prefix, s.subs[a.i].pc.p);
      }
    }
    forall i | 0 <= i < |s'.subs| ensures SubscriberOk(c, s'.subs[i]) {
      StepKeepsSubscriber(c, s, a, i);
    }
  }

  lemma StepKeepsSubscriber(c: Config, s: State, a: Action, i: nat)
    requires Enabled(c, s, a) && i < |s.subs| && SubscriberOk(c, s.subs[i])
    requires a.Expire? ==> CountOk(Channel(c, a.key))
    ensures i < |Step(c, s, a).subs| && SubscriberOk(c, Step(c, s, a).subs[i])
  {
    if a.Receive? && a.i == i {
      var inbox := s.subs[i].inbox;
      assert CountOk(inbox[0]);
      assert forall k | 0 <= k < |inbox[1..]| :: inbox[1..][k] == inbox[k + 1];
    }
  }

  predicate PutsAmong(values: iset<string>, actions: seq<Action>) {
    forall k | 0 <= k < |actions| && actions[k].Put? :: actions[k].value in values
  }

  lemma {:induction false} RunKeepsRange(c: Config, s: State, values: iset<string>, actions: seq<Action>)
    requires c.policies < LIMIT && RangeInv(c, s) && IsRun(c, s, actions) && PutsAmong(values, actions)
    requires forall v | v in values :: FirstPayload(c, v).count >= -1
    ensures RangeInv(c, After(c, s, actions))
    decreases |actions|
  {
    if actions != [] {
      StepKeepsRange(c, s, actions[0]);
      assert forall k | 0 <= k < |actions[1..]| :: actions[1..][k] == actions[k + 1];
      RunKeepsRange(c, Step(c, s, actions[0]), values, actions[1..]);
    }
  }

  /** Every lookup that is about to be made finds a delay. */
  predicate InRange(c: Config, s: State) {
    forall i | 0 <= i < |s.subs| && s.subs[i].pc.Putting? :: HasPolicy(c, s.subs[i].pc.p.count)
  }

  /** No client's put and no subscriber's next attempt ever looks up a delay that is not there. */
  ghost predicate AlwaysInRange(c: Config, workers: seq<Worker>, values: iset<string>) {
    && (values != iset{} ==> HasPolicy(c, 0))
    && forall actions | IsRun(c, Initial(workers), actions) && PutsAmong(values, actions) ::
      InRange(c, After(c, Initial(workers), actions))
  }

  /** When clients put values that do not bring a count below -1 along - clean values bring 0 - every
      lookup in the list of policies is in range, for any number of subscribers. */
  lemma PolicyIndexInRange(c: Config, workers: seq<Worker>, values: iset<string>)
    requires c.policies < LIMIT && (values != iset{} ==> 0 < c.policies)
    requires forall v | v in values :: FirstPayload(c, v).count >= -1
    ensures AlwaysInRange(c, workers, values)
  {
    forall actions | IsRun(c, Initial(workers), actions) && PutsAmong(values, actions)
      ensures InRange(c, After(c, Initial(workers), actions))
    {
      RunKeepsRange(c, Initial(workers), values, actions);
      var s := After(c, Initial(workers), actions);
      assert forall i | 0 <= i < |s.subs| :: SubscriberOk(c, s.subs[i]);
    }
  }

  // ---- Whole turns ----------------------------------------------------------------------------------------

  /** What becomes of the commands of one turn of the loop. */
  datatype TurnFates = TurnFates(setnx: Fate, get: Fate, put: Fate, del: Fate)

  const ALL_DONE := TurnFates(Done, Done, Done, Done)

  /** A turn makes no call of the handler, makes one and ends, or makes one and then panics. */
  datatype Outcome = Ignored | Handled(p: Payload) | Panicked(p: Payload)

  predicate Obtains(locks: map<string, string>, value: string, token: string, fates: TurnFates) {
    || (Takes(locks, value, fates.setnx) && fates.setnx.Done?)
    || Finds(LocksAfter(locks, value, token, fates.setnx), value, token, fates.get)
  }

  /** The locks, the armed keys and the outcome after one turn for an expiry announced on `channel`. */
  function Turned(c: Config, locks: map<string, string>, armed: set<string>, token: string, channel: string,
                  putNext: bool, fates: TurnFates): (map<string, string>, set<string>, Outcome) {
    var decoded := Decode(channel);
    if decoded.Err? then (locks, armed, Ignored)
    else
      var p := decoded.value.(count := decoded.value.count + 1);
      var locks' := LocksAfter(locks, p.value, token, fates.setnx);
      if !Obtains(locks, p.value, token, fates) then (locks', armed, Ignored)
      else if AfterHandler(c, p, putNext).Unlocking? then
        (if fates.del.NotDone? then locks' else locks' - {p.value}, armed, Handled(p))
      else if !HasPolicy(c, p.count) then (locks', armed, Panicked(p))
      else (locks', if fates.put.NotDone? then armed else armed + {Encode(p)}, Handled(p))
  }

  /** With every command carried out, a turn that calls the handler and does not panic keeps the lock
      exactly when it arms another attempt, and that exactly when the handler asks for one and the count
      has not reached the number of policies; no other lock and no other key is touched. */
  lemma LockKeptIff(c: Config, locks: map<string, string>, armed: set<string>, token: string, channel: string,
                    putNext: bool)
    requires Decode(channel).Ok?
    ensures var p := Decode(channel).value.(count := Decode(channel).value.count + 1);
      var (locks', armed', outcome) := Turned(c, locks, armed, token, channel, putNext, ALL_DONE);
      && (outcome.Ignored? <==> p.value in locks && locks[p.value] != token)
      && (outcome.Ignored? ==> locks' == locks && armed' == armed)
      && (!outcome.Ignored? ==> outcome.p == p)
      && (outcome.Panicked? <==> !outcome.Ignored? && putNext && p.count < c.policies && p.count < 0)
      && (outcome.Handled? ==>
            && (p.value in locks' <==> putNext && p.count < c.policies)
            && (p.value in locks' ==> locks'[p.value] == token)
            && armed' == armed + (if putNext && p.count < c.policies then {Encode(p)} else {}))
      && (forall v | v != p.value :: (v in locks' <==> v in locks) && (v in locks ==> locks'[v] == locks[v]))
  {
  }

  function AfterTurn(c: Config, s: State, i: nat, putNext: bool, fates: TurnFates): State
    requires i < |s.subs| && s.subs[i].inbox != []
  {
    var sub := s.subs[i];
    var (locks, armed, outcome) := Turned(c, s.locks, s.armed, Token(sub.worker), sub.inbox[0], putNext, fates);
    var pc := if outcome.Panicked? then Putting(outcome.p) else Idle;
    State(locks, armed, s.subs[i := sub.(inbox := sub.inbox[1..], pc := pc)],
          if outcome.Ignored? then s.calls else s.calls + [Call(i, outcome.p)])
  }

  lemma RunCons(c: Config, s: State, a: Action, rest: seq<Action>)
    requires Enabled(c, s, a) && IsRun(c, Step(c, s, a), rest)
    ensures IsRun(c, s, [a] + rest) && After(c, s, [a] + rest) == After(c, Step(c, s, a), rest)
  {
    assert ([a] + rest)[1..] == rest;
  }

  lemma {:induction false} RunConcat(c: Config, s: State, xs: seq<Action>, ys: seq<Action>)
    requires IsRun(c, s, xs) && IsRun(c, After(c, s, xs), ys)
    ensures IsRun(c, s, xs + ys) && After(c, s, xs + ys) == After(c, After(c, s, xs), ys)
    decreases |xs|
  {
    if xs == [] {
      assert xs + ys == ys;
    } else {
      assert (xs + ys)[1..] == xs[1..] + ys;
      RunConcat(c, Step(c, s, xs[0]), xs[1..], ys);
    }
  }

  predicate NoPuts(actions: seq<Action>) {
    forall k | 0 <= k < |actions| :: !actions[k].Put?
  }

  /** What the rest of a turn makes of a state in which the handler is being called. */
  function Ended(c: Config, s: State, i: nat, p: Payload, putNext: bool, fates: TurnFates): State
    requires i < |s.subs|
  {
    if AfterHandler(c, p, putNext).Unlocking? then
      Moved(s, i, Idle).(locks := if fates.del.NotDone? then s.locks else s.locks - {p.value})
    else if !HasPolicy(c, p.count) then Moved(s, i, Putting(p))
    else Moved(s, i, Idle).(armed := if fates.put.NotDone? then s.armed else s.armed + {Encode(p)})
  }

  /** From the answer of the handler to the end of the turn. */
  lemma EndOfTurn(c: Config, s: State, i: nat, p: Payload, putNext: bool, fates: TurnFates)
      returns (actions: seq<Action>)
    requires i < |s.subs| && s.subs[i].pc == Handling(p)
    ensures IsRun(c, s, actions) && NoPuts(actions)
    ensures After(c, s, actions) == Ended(c, s, i, p, putNext, fates)
  {
    var pc := AfterHandler(c, p, putNext);
    var s1 := Moved(s, i, pc);
    assert Step(c, s, Handle(i, putNext)) == s1;
    assert Moved(s1, i, Idle).subs == Moved(s, i, Idle).subs;
    actions := [];
    if pc.Unlocking? {
      RunCons(c, s1, Action.Unlock(i, fates.del), []);
      actions := [Action.Unlock(i, fates.del)] + [];
    } else if HasPolicy(c, p.count) {
      RunCons(c, s1, PutNext(i, fates.put), []);
      actions := [PutNext(i, fates.put)] + [];
    }
    RunCons(c, s, Handle(i, putNext), actions);
    actions := [Handle(i, putNext)] + actions;
  }

  /** From the decoded payload to the handler, or to the end of the turn if the lock is not obtained. */
  lemma LockingRuns(c: Config, s: State, i: nat, p: Payload, fates: TurnFates) returns (actions: seq<Action>)
    requires i < |s.subs| && s.subs[i].pc == Locking(p)
    ensures IsRun(c, s, actions) && NoPuts(actions)
    ensures var token := Token(s.subs[i].worker);
      var s1 := s.(locks := LocksAfter(s.locks, p.value, token, fates.setnx));
      After(c, s, actions) == if Obtains(s.locks, p.value, token, fates) then EnterHandler(s1, i, p) else Moved(s1, i, Idle)
  {
    var token := Token(s.subs[i].worker);
    var s1 := s.(locks := LocksAfter(s.locks, p.value, token, fates.setnx));
    actions := [];
    if !(Takes(s.locks, p.value, fates.setnx) && fates.setnx.Done?) {
      var s2 := Moved(s1, i, Checking(p));
      assert Step(c, s, TryLock(i, fates.setnx)) == s2;
      assert Moved(s2, i, Idle).subs == Moved(s1, i, Idle).subs;
      assert Moved(s2, i, Handling(p)).subs == Moved(s1, i, Handling(p)).subs;
      RunCons(c, s2, CheckLock(i, fates.get), []);
      actions := [CheckLock(i, fates.get)] + [];
    }
    RunCons(c, s, TryLock(i, fates.setnx), actions);
    actions := [TryLock(i, fates.setnx)] + actions;
  }

  /** The steps of one turn, taken without interference, add up to `AfterTurn`. */
  lemma TurnIsARun(c: Config, s: State, i: nat, putNext: bool, fates: TurnFates) returns (actions: seq<Action>)
    requires i < |s.subs| && s.subs[i].pc.Idle? && s.subs[i].inbox != []
    ensures IsRun(c, s, actions) && NoPuts(actions)
    ensures After(c, s, actions) == AfterTurn(c, s, i, putNext, fates)
  {
    var sub, decoded := s.subs[i], Decode(s.subs[i].inbox[0]);
    var s1 := Step(c, s, Receive(i));
    actions := [];
    if decoded.Ok? {
      actions := DecodedTurn(c, s, s1, i, putNext, fates);
    }
    RunCons(c, s, Receive(i), actions);
    actions := [Receive(i)] + actions;
  }

  lemma DecodedTurn(c: Config, s: State, s1: State, i: nat, putNext: bool, fates: TurnFates) returns (actions: seq<Action>)
    requires i < |s.subs| && s.subs[i].pc.Idle? && s.subs[i].inbox != [] && s1 == Step(c, s, Receive(i))
    requires Decode(s.subs[i].inbox[0]).Ok?
    ensures IsRun(c, s1, actions) && NoPuts(actions)
    ensures After(c, s1, actions) == AfterTurn(c, s, i, putNext, fates)
  {
    var decoded := Decode(s.subs[i].inbox[0]);
    var p, token := decoded.value.(count := decoded.value.count + 1), Token(s.subs[i].worker);
    var lock := LockingRuns(c, s1, i, p, fates);
    var s2 := After(c, s1, lock);
    TurnAddsUp(c, s, s2, i, p, putNext, fates);
    actions := lock;
    if Obtains(s.locks, p.value, token, fates) {
      var finish := EndOfTurn(c, s2, i, p, putNext, fates);
      RunConcat(c, s1, lock, finish);
      actions := lock + finish;
    }
  }

  lemma TurnAddsUp(c: Config, s: State, s2: State, i: nat, p: Payload, putNext: bool, fates: TurnFates)
    requires i < |s.subs| && s.subs[i].inbox != []
    requires Decode(s.subs[i].inbox[0]) == Ok(p.(count := p.count - 1))
    requires var token, s1 := Token(s.subs[i].worker),
        s.(subs := s.subs[i := s.subs[i].(inbox := s.subs[i].inbox[1..], pc := Locking(p))],
           locks := LocksAfter(s.locks, p.value, Token(s.subs[i].worker), fates.setnx));
      s2 == if Obtains(s.locks, p.value, token, fates) then EnterHandler(s1, i, p) else Moved(s1, i, Idle)
    ensures AfterTurn(c, s, i, putNext, fates)
      == if Obtains(s.locks, p.value, Token(s.subs[i].worker), fates) then Ended(c, s2, i, p, putNext, fates) else s2
  {
    var sub := s.subs[i].(inbox := s.subs[i].inbox[1..]);
    UpdateTwice(s.subs, i, sub.(pc := Locking(p)), sub.(pc := Idle));
    UpdateTwice(s.subs, i, sub.(pc := Locking(p)), sub.(pc := Handling(p)));
    UpdateTwice(s.subs, i, sub.(pc := Handling(p)), sub.(pc := Idle));
    UpdateTwice(s.subs, i, sub.(pc := Handling(p)), sub.(pc := Putting(p)));
  }

  lemma UpdateTwice<T>(xs: seq<T>, i: nat, a: T, b: T)
    requires i < |xs|
    ensures xs[i := a][i := b] == xs[i := b]
  {
  }

  // ---- A lookup out of range --------------------------------------------------------------------------------

  /** A client puts `value`, its key expires and the subscribers in `told` hear of it. */
  function FirstExpiry(value: string, told: set<nat>): seq<Action> {
    [Put(value), Expire(Encode(Payload(value, 0)), told)]
  }

  lemma FirstExpiryRuns(c: Config, workers: seq<Worker>, value: string, told: set<nat>)
    requires 0 < c.policies
    ensures IsRun(c, Initial(workers), FirstExpiry(value, told))
    ensures var s, channel := After(c, Initial(workers), FirstExpiry(value, told)), Channel(c, Encode(Payload(value, 0)));
      && s.locks == map[] && s.calls == [] && |s.subs| == |workers|
      && forall i | 0 <= i < |workers| :: s.subs[i] == Subscriber(workers[i], if i in told then [channel] else [], Idle)
  {
    var key, actions := Encode(Payload(value, 0)), FirstExpiry(value, told);
    var s0 := Initial(workers);
    var s1 := Step(c, s0, actions[0]);
    var s2 := Step(c, s1, actions[1]);
    assert [] + [Channel(c, key)] == [Channel(c, key)];
    RunCons(c, s1, actions[1], []);
    RunCons(c, s0, actions[0], [actions[1]] + []);
    assert actions == [actions[0]] + ([actions[1]] + []);
    assert After(c, s0, actions) == s2;
  }

  /** A value that brings a count below -1 along leads to a lookup in front of the list of policies. */
  lemma LookupOutOfRange(c: Config, workers: seq<Worker>, value: string) returns (actions: seq<Action>)
    requires 0 < c.policies && workers != [] && FirstPayload(c, value).count < -1
    ensures IsRun(c, Initial(workers), actions) && PutsAmong(iset{value}, actions)
    ensures !InRange(c, After(c, Initial(workers), actions))
  {
    var first := FirstExpiry(value, {0});
    FirstExpiryRuns(c, workers, value, {0});
    var s := After(c, Initial(workers), first);
    EncodedDecodes(c.prefix, Payload(value, 0));
    var turn := TurnIsARun(c, s, 0, true, ALL_DONE);
    RunConcat(c, Initial(workers), first, turn);
    actions := first + turn;
    var p := FirstPayload(c, value);
    assert AfterTurn(c, s, 0, true, ALL_DONE).subs[0].pc == Putting(p.(count := p.count + 1));
  }

  /** For instance `x||-5`: its key `x||-5||0` is read back as `x` with count -5. */
  lemma OutOfRangeExample(c: Config, workers: seq<Worker>) returns (actions: seq<Action>)
    requires 0 < c.policies && workers != []
    ensures FirstPayload(c, "x||-5") == Payload("x", -5)
    ensures IsRun(c, Initial(workers), actions) && PutsAmong(iset{"x||-5"}, actions)
    ensures !InRange(c, After(c, Initial(workers), actions))
  {
    assert "x||-5" == "x" + BARS + Printed(-5) by { assert Digits(5) == "5"; }
    assert Clean("x") by { AtBars("x|", Index("x|", BARS)); }
    OwnCount(c.prefix, "x", -5, 0);
    actions := LookupOutOfRange(c, workers, "x||-5");
  }

  /** Every lookup of every run is in range if and only if clients put nothing, or there is a policy and
      no value that clients put brings a count below -1 along. */
  lemma InRangeIff(c: Config, workers: seq<Worker>, values: iset<string>)
    requires c.policies < LIMIT && workers != []
    ensures AlwaysInRange(c, workers, values)
      <==> values == iset{} || (0 < c.policies && forall v | v in values :: FirstPayload(c, v).count >= -1)
  {
    if values == iset{} || (0 < c.policies && forall v | v in values :: FirstPayload(c, v).count >= -1) {
      PolicyIndexInRange(c, workers, values);
    } else if 0 < c.policies {
      var v :| v in values && FirstPayload(c, v).count < -1;
      var actions := LookupOutOfRange(c, workers, v);
      assert PutsAmong(values, actions);
    }
  }

  // ---- One retry chain -----------------------------------------------------------------------------------

  /** The counts of the handler calls for `value`, in order. */
  function CountsOf(calls: seq<Call>, value: string): seq<int> {
    if calls == [] then []
    else
      var before, last := CountsOf(calls[..|calls| - 1], value), calls[|calls| - 1];
      if last.p.value == value then before + [last.p.count] else before
  }

  /** k+1, ..., k+m */
  function Upward(k: int, m: nat): seq<int> {
    seq(m, i => k + 1 + i)
  }

  /** Where the one payload for a value is: not put yet, waiting to expire, announced, being
      processed, or gone for good. */
  datatype Phase = Unborn | Armed(key: string) | Queued(at: nat) | InHand | Over

  predicate Mentions(channel: string, value: string) {
    Decode(channel).Ok? && Decode(channel).value.value == value
  }

  /** After `m` calls another one may come. */
  predicate More(c: Config, first: Payload, m: nat) {
    m == 0 || HasPolicy(c, first.count + m)
  }

  /** The most calls a payload put as `first` can lead to: one for each policy its count has not passed
      yet, but always one; and no more than that one if the next lookup panics. */
  function MostCalls(c: Config, first: Payload): nat {
    if first.count >= -1 && c.policies - first.count > 1 then c.policies - first.count else 1
  }

  /** Before the handler is called, the payload in hand carries the count of the next call. */
  predicate Early(pc: Pc) {
    pc.Locking? || pc.Checking?
  }

  predicate InHandOk(c: Config, pc: Pc, first: Payload, m: nat, phase: Phase) {
    !pc.Idle? && pc.p.value == first.value ==>
      && phase.InHand?
      && (if Early(pc) then pc.p.count == first.count + m + 1 && More(c, first, m) else pc.p.count == first.count + m)
  }

  predicate QueueOk(c: Config, inbox: seq<string>, first: Payload, m: nat, phase: Phase) {
    forall k | 0 <= k < |inbox| && Mentions(inbox[k], first.value) ::
      phase == Queued(k) && Decode(inbox[k]).value.count == first.count + m && More(c, first, m)
  }

  predicate KeysOk(c: Config, armed: set<string>, first: Payload, m: nat, phase: Phase) {
    forall key | key in armed && Mentions(Channel(c, key), first.value) ::
      phase == Armed(key) && Decode(Channel(c, key)).value.count == first.count + m && More(c, first, m)
  }

  /** `m` handler calls have been made for the value of `first`, with counts going up from its count,
      and the next one, if any, can only come from the place `phase` says. */
  predicate Located(c: Config, s: State, first: Payload, m: nat, phase: Phase) {
    && |s.subs| == 1
    && CountsOf(s.calls, first.value) == Upward(first.count, m) && m <= MostCalls(c, first)
    && (phase.Unborn? ==> m == 0)
    && KeysOk(c, s.armed, first, m, phase)
    && QueueOk(c, s.subs[0].inbox, first, m, phase)
    && InHandOk(c, s.subs[0].pc, first, m, phase)
  }

  ghost predicate ChainAt(c: Config, s: State, first: Payload, m: nat, phase: Phase) {
    c.policies < LIMIT && CleanInv(s) && Located(c, s, first, m, phase)
  }

  lemma CountsOfAppend(calls: seq<Call>, call: Call, value: string)
    ensures CountsOf(calls + [call], value)
      == if call.p.value == value then CountsOf(calls, value) + [call.p.count] else CountsOf(calls, value)
  {
    assert (calls + [call])[..|calls|] == calls;
  }

  /** This action puts a payload that is read back under the value of `first`. */
  predicate Concerns(c: Config, a: Action, first: Payload) {
    a.Put? && FirstPayload(c, a.value).value == first.value
  }

  lemma ClientPutKeepsChain(c: Config, s: State, first: Payload, m: nat, phase: Phase, a: Action) returns (phase': Phase)
    requires ChainAt(c, s, first, m, phase) && Enabled(c, s, a) && a.Put?
    requires Concerns(c, a, first) ==> FirstPayload(c, a.value) == first && phase.Unborn?
    ensures Located(c, Step(c, s, a), first, m, phase')
    ensures phase'.Unborn? <==> phase.Unborn? && !Concerns(c, a, first)
  {
    var key := Encode(Payload(a.value, 0));
    EncodedDecodes(c.prefix, Payload(a.value, 0));
    phase' := if Concerns(c, a, first) then Armed(key) else phase;
    assert Mentions(Channel(c, key), first.value) <==> Concerns(c, a, first);
  }

  lemma ExpireKeepsChain(c: Config, s: State, first: Payload, m: nat, phase: Phase, a: Action) returns (phase': Phase)
    requires ChainAt(c, s, first, m, phase) && Enabled(c, s, a) && a.Expire?
    ensures Located(c, Step(c, s, a), first, m, phase')
    ensures phase'.Unborn? <==> phase.Unborn?
  {
    var s', sub, channel := Step(c, s, a), s.subs[0], Channel(c, a.key);
    assert s'.subs[0] == if 0 in a.told then sub.(inbox := sub.inbox + [channel]) else sub;
    phase' := if !Mentions(channel, first.value) then phase else if 0 in a.told then Queued(|sub.inbox|) else Over;
    LongerQueue(c, sub.inbox, channel, first, m, phase, phase');
  }

  lemma LongerQueue(c: Config, inbox: seq<string>, channel: string, first: Payload, m: nat, phase: Phase, phase': Phase)
    requires QueueOk(c, inbox, first, m, phase)
    requires Mentions(channel, first.value) ==>
      phase.Armed? && Decode(channel).value.count == first.count + m && More(c, first, m)
    requires phase' == phase || phase.Armed?
    ensures phase' == (if Mentions(channel, first.value) then Queued(|inbox|) else phase) ==>
      QueueOk(c, inbox + [channel], first, m, phase')
    ensures QueueOk(c, inbox, first, m, phase')
  {
    var longer := inbox + [channel];
    assert forall k | 0 <= k < |inbox| :: longer[k] == inbox[k];
    assert longer[|inbox|] == channel;
  }

  lemma ReceiveKeepsChain(c: Config, s: State, first: Payload, m: nat, phase: Phase, a: Action) returns (phase': Phase)
    requires ChainAt(c, s, first, m, phase) && Enabled(c, s, a) && a.Receive?
    ensures Located(c, Step(c, s, a), first, m, phase')
    ensures phase'.Unborn? <==> phase.Unborn?
  {
    var inbox := s.subs[0].inbox;
    phase' := if Mentions(inbox[0], first.value) then InHand
              else if phase.Queued? then (if phase.at > 0 then Queued(phase.at - 1) else Over)
              else phase;
    ShorterQueue(c, inbox, first, m, phase, phase');
  }

  /** What the queue says about the payload once its first message is taken. */
  lemma ShorterQueue(c: Config, inbox: seq<string>, first: Payload, m: nat, phase: Phase, phase': Phase)
    requires inbox != [] && QueueOk(c, inbox, first, m, phase)
    requires phase.Queued? && phase.at > 0 && !Mentions(inbox[0], first.value) ==> phase' == Queued(phase.at - 1)
    ensures QueueOk(c, inbox[1..], first, m, phase')
  {
    forall k | 0 <= k < |inbox[1..]| && Mentions(inbox[1..][k], first.value)
      ensures phase' == Queued(k) && Decode(inbox[1..][k]).value.count == first.count + m && More(c, first, m)
    {
      assert inbox[1..][k] == inbox[k + 1];
    }
  }

  lemma MoveKeepsLocated(c: Config, s: State, s': State, first: Payload, m: nat, phase: Phase)
    requires Located(c, s, first, m, phase) && |s'.subs| == 1
    requires s'.armed == s.armed && s'.calls == s.calls && s'.subs[0].inbox == s.subs[0].inbox
    requires var pc, pc' := s.subs[0].pc, s'.subs[0].pc;
      pc'.Idle? || (!pc.Idle? && pc'.p == pc.p && Early(pc') == Early(pc))
    ensures Located(c, s', first, m, phase)
  {
  }

  lemma EnterKeepsLocated(c: Config, s: State, s': State, first: Payload, m: nat, phase: Phase, p: Payload)
      returns (m': nat)
    requires Located(c, s, first, m, phase) && |s'.subs| == 1
    requires s'.armed == s.armed && s'.subs[0].inbox == s.subs[0].inbox && s'.calls == s.calls + [Call(0, p)]
    requires Early(s.subs[0].pc) && s.subs[0].pc.p == p && s'.subs[0].pc == Handling(p)
    ensures Located(c, s', first, m', phase)
  {
    CountsOfAppend(s.calls, Call(0, p), first.value);
    m' := if p.value == first.value then m + 1 else m;
    assert Upward(first.count, m + 1) == Upward(first.count, m) + [first.count + m + 1];
  }

  lemma LockKeepsChain(c: Config, s: State, first: Payload, m: nat, phase: Phase, a: Action) returns (m': nat)
    requires ChainAt(c, s, first, m, phase) && Enabled(c, s, a) && (a.TryLock? || a.CheckLock?)
    ensures Located(c, Step(c, s, a), first, m', phase)
  {
    var s' := Step(c, s, a);
    if s'.subs[0].pc.Handling? {
      m' := EnterKeepsLocated(c, s, s', first, m, phase, s.subs[0].pc.p);
    } else {
      m' := m;
      MoveKeepsLocated(c, s, s', first, m, phase);
    }
  }

  lemma PutNextKeepsChain(c: Config, s: State, first: Payload, m: nat, phase: Phase, a: Action) returns (phase': Phase)
    requires ChainAt(c, s, first, m, phase) && Enabled(c, s, a) && a.PutNext?
    ensures Located(c, Step(c, s, a), first, m, phase')
    ensures phase'.Unborn? <==> phase.Unborn?
  {
    var p := s.subs[0].pc.p;
    phase' := if p.value != first.value then phase else if a.fate.NotDone? then Over else Armed(Encode(p));
    if !a.fate.NotDone? {
      NextKeyKeepsKeys(c, s.armed, first, m, phase, p);
    }
  }

  lemma NextKeyKeepsKeys(c: Config, armed: set<string>, first: Payload, m: nat, phase: Phase, p: Payload)
    requires c.policies < LIMIT && KeysOk(c, armed, first, m, phase) && Clean(p.value) && HasPolicy(c, p.count)
    requires p.value == first.value ==> phase.InHand? && p.count == first.count + m
    ensures KeysOk(c, armed + {Encode(p)}, first, m, if p.value == first.value then Armed(Encode(p)) else phase)
  {
    RoundTripIff(c.prefix, p);
  }

  lemma HandlerEndKeepsChain(c: Config, s: State, first: Payload, m: nat, phase: Phase, a: Action)
    requires ChainAt(c, s, first, m, phase) && Enabled(c, s, a) && (a.Handle? || a.Unlock?)
    ensures Located(c, Step(c, s, a), first, m, phase)
  {
    MoveKeepsLocated(c, s, Step(c, s, a), first, m, phase);
  }

  lemma StepKeepsChain(c: Config, s: State, first: Payload, m: nat, phase: Phase, a: Action)
      returns (m': nat, phase': Phase)
    requires ChainAt(c, s, first, m, phase) && Enabled(c, s, a)
    requires Concerns(c, a, first) ==> FirstPayload(c, a.value) == first && phase.Unborn?
    ensures ChainAt(c, Step(c, s, a), first, m', phase')
    ensures phase'.Unborn? <==> phase.Unborn? && !Concerns(c, a, first)
  {
    m', phase' := m, phase;
    StepKeepsClean(c, s, a);
    match a
    case Put(_) => phase' := ClientPutKeepsChain(c, s, first, m, phase, a);
    case Expire(_, _) => phase' := ExpireKeepsChain(c, s, first, m, phase, a);
    case Receive(_) => phase' := ReceiveKeepsChain(c, s, first, m, phase, a);
    case TryLock(_, _) => m' := LockKeepsChain(c, s, first, m, phase, a);
    case CheckLock(_, _) => m' := LockKeepsChain(c, s, first, m, phase, a);
    case Handle(_, _) => HandlerEndKeepsChain(c, s, first, m, phase, a);
    case PutNext(_, _) => phase' := PutNextKeepsChain(c, s, first, m, phase, a);
    case Unlock(_, _) => HandlerEndKeepsChain(c, s, first, m, phase, a);
  }

  /** At most one put is read back under the value of `first`, and that one as `first` itself. */
  predicate PutOnce(c: Config, actions: seq<Action>, first: Payload, already: bool)
    decreases |actions|
  {
    actions == [] ||
      (if Concerns(c, actions[0], first)
       then FirstPayload(c, actions[0].value) == first && !already && PutOnce(c, actions[1..], first, true)
       else PutOnce(c, actions[1..], first, already))
  }

  lemma {:induction false} RunKeepsChain(c: Config, s: State, first: Payload, m: nat, phase: Phase,
                                         actions: seq<Action>) returns (m': nat)
    requires ChainAt(c, s, first, m, phase) && IsRun(c, s, actions)
    requires PutOnce(c, actions, first, !phase.Unborn?)
    ensures m' <= MostCalls(c, first) && CountsOf(After(c, s, actions).calls, first.value) == Upward(first.count, m')
    decreases |actions|
  {
    if actions == [] {
      m' := m;
    } else {
      var m1, phase1 := StepKeepsChain(c, s, first, m, phase, actions[0]);
      m' := RunKeepsChain(c, Step(c, s, actions[0]), first, m1, phase1, actions[1..]);
    }
  }

  /** With one subscriber, one put of a payload that is read back as `first` leads to handler calls with
      the counts first.count + 1, first.count + 2, ... up to at most the number of policies, or to a single
      call - whatever the handler answers, whichever commands fail and whatever else clients put. For a
      clean value these are at most as many calls as there are policies, numbered 1, 2, 3, ... */
  lemma RetryChain(c: Config, worker: Worker, actions: seq<Action>, first: Payload) returns (m: nat)
    requires c.policies < LIMIT
    requires IsRun(c, Initial([worker]), actions) && PutOnce(c, actions, first, false)
    ensures m <= MostCalls(c, first)
    ensures CountsOf(After(c, Initial([worker]), actions).calls, first.value) == Upward(first.count, m)
  {
    m := RunKeepsChain(c, Initial([worker]), first, 0, Unborn, actions);
  }

  /** One subscriber, idle, with nothing but `key` waiting, which is read back as `p`; the lock is free or
      its own. */
  ghost predicate Waiting(c: Config, s: State, key: string, p: Payload) {
    && |s.subs| == 1 && s.subs[0].pc.Idle? && s.subs[0].inbox == [] && s.armed == {key}
    && Decode(Channel(c, key)) == Ok(p) && (p.value in s.locks ==> HeldBy(s, p.value, s.subs[0].worker))
  }

  /** What a turn makes of such a state once the key has expired, if the handler asks for another attempt. */
  lemma AnotherTurn(c: Config, s: State, channel: string, p: Payload)
    requires c.policies < LIMIT && |s.subs| == 1 && s.subs[0].inbox == [channel] && s.armed == {}
    requires Decode(channel) == Ok(p) && (p.value in s.locks ==> HeldBy(s, p.value, s.subs[0].worker))
    ensures var s', p' := AfterTurn(c, s, 0, true, ALL_DONE), p.(count := p.count + 1);
      && s'.calls == s.calls + [Call(0, p')]
      && (HasPolicy(c, p'.count) ==> Waiting(c, s', Encode(p'), p'))
  {
    var p' := p.(count := p.count + 1);
    assert {} + {Encode(p')} == {Encode(p')};
    if HasPolicy(c, p'.count) {
      DecodedIsClean(channel);
      RoundTripIff(c.prefix, p');
    }
  }

  /** One round: the key expires, and the subscriber takes its turn. */
  lemma RoundRuns(c: Config, s: State, key: string, p: Payload) returns (actions: seq<Action>, s': State)
    requires c.policies < LIMIT && Waiting(c, s, key, p)
    ensures IsRun(c, s, actions) && NoPuts(actions) && After(c, s, actions) == s'
    ensures var p' := p.(count := p.count + 1);
      && s'.calls == s.calls + [Call(0, p')]
      && (HasPolicy(c, p'.count) ==> Waiting(c, s', Encode(p'), p'))
  {
    var channel, s1 := Channel(c, key), Step(c, s, Expire(key, {0}));
    assert [] + [channel] == [channel];
    assert s1.subs[0] == s.subs[0].(inbox := [channel]) && s1.armed == {};
    AnotherTurn(c, s1, channel, p);
    var turn := TurnIsARun(c, s1, 0, true, ALL_DONE);
    RunCons(c, s, Expire(key, {0}), turn);
    actions, s' := [Expire(key, {0})] + turn, AfterTurn(c, s1, 0, true, ALL_DONE);
  }

  /** A handler that always asks for another attempt gets every one there is. */
  lemma {:induction false} RetriesRun(c: Config, s: State, key: string, p: Payload) returns (actions: seq<Action>)
    requires c.policies < LIMIT && Waiting(c, s, key, p)
    ensures IsRun(c, s, actions) && NoPuts(actions)
    ensures |CountsOf(After(c, s, actions).calls, p.value)| == |CountsOf(s.calls, p.value)| + MostCalls(c, p)
    decreases if c.policies > p.count then c.policies - p.count else 0
  {
    var p' := p.(count := p.count + 1);
    var s1;
    actions, s1 := RoundRuns(c, s, key, p);
    CountsOfAppend(s.calls, Call(0, p'), p.value);
    if HasPolicy(c, p'.count) {
      var rest := RetriesRun(c, s1, Encode(p'), p');
      RunConcat(c, s, actions, rest);
      actions := actions + rest;
    }
  }

  /** The bound is reached, whatever value is put. */
  lemma MostCallsReached(c: Config, worker: Worker, value: string) returns (actions: seq<Action>)
    requires 0 < c.policies < LIMIT
    ensures IsRun(c, Initial([worker]), actions) && PutOnce(c, actions, FirstPayload(c, value), false)
    ensures var first := FirstPayload(c, value);
      |CountsOf(After(c, Initial([worker]), actions).calls, first.value)| == MostCalls(c, first)
  {
    var first, key := FirstPayload(c, value), Encode(Payload(value, 0));
    EncodedDecodes(c.prefix, Payload(value, 0));
    var s := Step(c, Initial([worker]), Put(value));
    assert s.armed == {key};
    var rest := RetriesRun(c, s, key, first);
    RunCons(c, Initial([worker]), Put(value), rest);
    actions := [Put(value)] + rest;
    assert actions[1..] == rest;
    NoMorePuts(c, rest, first, true);
  }

  // ---- Two subscribers -------------------------------------------------------------------------------------

  lemma {:induction false} NoMorePuts(c: Config, actions: seq<Action>, first: Payload, already: bool)
    requires NoPuts(actions)
    ensures PutOnce(c, actions, first, already)
    decreases |actions|
  {
    if actions != [] {
      NoMorePuts(c, actions[1..], first, already);
    }
  }

  /** Nothing locked, nothing handled, and the first two subscribers have heard of one expiry. */
  predicate BothHeard(s: State, channel: string) {
    && s.locks == map[] && s.calls == [] && |s.subs| >= 2
    && s.subs[0].pc.Idle? && s.subs[1].pc.Idle? && s.subs[0].inbox == s.subs[1].inbox == [channel]
  }

  /** Each of the two takes its turn, and neither handler asks for another attempt. */
  lemma TwoTurnsRun(c: Config, s: State, channel: string, p: Payload) returns (turns: seq<Action>)
    requires BothHeard(s, channel) && Decode(channel) == Ok(p)
    ensures IsRun(c, s, turns) && NoPuts(turns)
    ensures var p' := p.(count := p.count + 1);
      After(c, s, turns).calls == [Call(0, p'), Call(1, p')]
  {
    BothTurnsTaken(c, s, channel, p);
    var first := TurnIsARun(c, s, 0, false, ALL_DONE);
    var second := TurnIsARun(c, AfterTurn(c, s, 0, false, ALL_DONE), 1, false, ALL_DONE);
    RunConcat(c, s, first, second);
    turns := first + second;
  }

  lemma BothTurnsTaken(c: Config, s: State, channel: string, p: Payload)
    requires BothHeard(s, channel) && Decode(channel) == Ok(p)
    ensures var p', t := p.(count := p.count + 1), AfterTurn(c, s, 0, false, ALL_DONE);
      && |t.subs| == |s.subs| && t.subs[1] == s.subs[1] && t.locks == map[]
      && AfterTurn(c, t, 1, false, ALL_DONE).calls == [Call(0, p'), Call(1, p')]
  {
    var token := Token(s.subs[0].worker);
    assert map[p.value := token] - {p.value} == map[];
  }

  lemma SameCountTwice(p: Payload)
    ensures CountsOf([Call(0, p), Call(1, p)], p.value) == [p.count, p.count]
  {
    var a, b := Call(0, p), Call(1, p);
    assert [a, b] == ([] + [a]) + [b];
    CountsOfAppend([], a, p.value);
    CountsOfAppend([] + [a], b, p.value);
  }

  /** As soon as two subscribers hear of an expiry the chain can break: once the first has given up
      the lock, the second handles the same payload again. */
  lemma TwoSubscribersRepeat(c: Config, workers: seq<Worker>, value: string) returns (actions: seq<Action>)
    requires 0 < c.policies && |workers| >= 2
    ensures IsRun(c, Initial(workers), actions) && PutOnce(c, actions, FirstPayload(c, value), false)
    ensures var p := FirstPayload(c, value);
      CountsOf(After(c, Initial(workers), actions).calls, p.value) == [p.count + 1, p.count + 1]
  {
    var p, first := FirstPayload(c, value), FirstExpiry(value, {0, 1});
    EncodedDecodes(c.prefix, Payload(value, 0));
    FirstExpiryRuns(c, workers, value, {0, 1});
    var turns := TwoTurnsRun(c, After(c, Initial(workers), first), Channel(c, Encode(Payload(value, 0))), p);
    RunConcat(c, Initial(workers), first, turns);
    SameCountTwice(p.(count := p.count + 1));
    actions := first + turns;
    assert actions[0] == Put(value) && forall k | 1 <= k < |actions| :: !actions[k].Put?;
    NoMorePuts(c, actions[1..], p, true);
  }

  /** The attempts are numbered upward from the first, and there are no more of them than the policies
      leave room for. */
  predicate InSequence(c: Config, calls: seq<Call>, first: Payload) {
    var counts := CountsOf(calls, first.value);
    |counts| <= MostCalls(c, first) && forall k | 0 <= k < |counts| :: counts[k] == first.count + 1 + k
  }

  /** Every run in which one put is read back under this payload's value numbers its attempts properly. */
  ghost predicate AlwaysInSequence(c: Config, workers: seq<Worker>, first: Payload) {
    forall actions | IsRun(c, Initial(workers), actions) && PutOnce(c, actions, first, false) ::
      InSequence(c, After(c, Initial(workers), actions).calls, first)
  }

  /** Whatever value a client puts, its attempts stay in sequence in every run exactly when there is one
      subscriber. */
  lemma InSequenceIff(c: Config, workers: seq<Worker>, value: string)
    requires 0 < c.policies < LIMIT && workers != []
    ensures AlwaysInSequence(c, workers, FirstPayload(c, value)) <==> |workers| == 1
  {
    var first := FirstPayload(c, value);
    if |workers| == 1 {
      assert workers == [workers[0]];
      forall actions | IsRun(c, Initial(workers), actions) && PutOnce(c, actions, first, false)
        ensures InSequence(c, After(c, Initial(workers), actions).calls, first)
      {
        var m := RetryChain(c, workers[0], actions, first);
      }
    } else {
      var actions := TwoSubscribersRepeat(c, workers, value);
      var calls := After(c, Initial(workers), actions).calls;
      assert CountsOf(calls, first.value)[1] == first.count + 1 && !InSequence(c, calls, first);
    }
  }

  // ---- The objects ----------------------------------------------------------------------------------------

  /** The part of Redis the protocol uses. */
  class Store {
    var locks: map<string, string>
    var armed: set<string>

    constructor ()
      ensures locks == map[] && armed == {}
    {
      locks, armed := map[], {};
    }

    method SetNX(value: string, token: string, fate: Fate) returns (ok: bool)
      modifies this`locks
      ensures ok <==> Takes(old(locks), value, fate) && fate.Done?
      ensures locks == LocksAfter(old(locks), value, token, fate)
    {
      ok := false;
      if !fate.NotDone? && value !in locks {
        locks := locks[value := token];
        ok := fate.Done?;
      }
    }

    method Get(value: string, fate: Fate) returns (token: Option<string>)
      ensures token == if fate.Done? && value in locks then Some(locks[value]) else None
    {
      token := None;
      if fate.Done? && value in locks {
        token := Some(locks[value]);
      }
    }
  }

  /** One subscriber's side of the protocol, run without interference. */
  class RetryNotification {
    const config: Config
    const worker: Worker
    const store: Store

    constructor (config: Config, worker: Worker, store: Store)
      ensures this.config == config && this.worker == worker && this.store == store
    {
      this.config, this.worker, this.store := config, worker, store;
    }

    /** Arms the payload's key; the count selects the delay among the policies, or there is none. */
    method PutNotification(p: Payload, fate: Fate) returns (panicked: bool)
      modifies store`armed
      ensures panicked <==> !HasPolicy(config, p.count)
      ensures store.armed ==
        if panicked || fate.NotDone? then old(store.armed) else old(store.armed) + {Encode(p)}
    {
      if p.count < 0 || p.count >= config.policies {
        return true;
      }
      if !fate.NotDone? {
        store.armed := store.armed + {Encode(p)};
      }
      return false;
    }

    /** Succeeds when SETNX reports success, and otherwise when the lock is found to hold this token. */
    method Lock(p: Payload, fates: TurnFates) returns (ok: bool)
      modifies store`locks
      ensures ok <==> Obtains(old(store.locks), p.value, Token(worker), fates)
      ensures store.locks == LocksAfter(old(store.locks), p.value, Token(worker), fates.setnx)
    {
      var token := Token(worker);
      ok := store.SetNX(p.value, token, fates.setnx);
      if ok {
        return;
      }
      var held := store.Get(p.value, fates.get);
      ok := held == Some(token);
    }

    method Unlock(p: Payload, fate: Fate)
      modifies store`locks
      ensures store.locks == if fate.NotDone? then old(store.locks) else old(store.locks) - {p.value}
    {
      if !fate.NotDone? {
        store.locks := store.locks - {p.value};
      }
    }

    /** The loop body for one expiry; `putNext` is the handler's answer if it is called. */
    method OnExpired(channel: string, putNext: bool, fates: TurnFates) returns (outcome: Outcome)
      modifies store
      ensures (store.locks, store.armed, outcome)
        == Turned(config, old(store.locks), old(store.armed), Token(worker), channel, putNext, fates)
    {
      var decoded := Decode(channel);
      if decoded.Err? {
        return Ignored;
      }
      var p := decoded.value.(count := decoded.value.count + 1);
      var locked := Lock(p, fates);
      if !locked {
        return Ignored;
      }
      if putNext && p.count < config.policies {
        var panicked := PutNotification(p, fates.put);
        if panicked {
          return Panicked(p);
        }
      }
      if !putNext || (putNext && p.count >= config.policies) {
        Unlock(p, fates.del);
      }
      return Handled(p);
    }
  }

  /** How many delays there are by default. */
  const DEFAULT_POLICIES := 6

  /** Nothing is created without a node, a key and a store; without policies the default ones are used. */
  method NewNotification(node: string, key: string, store: Store?, policies: Option<nat>, prefix: string, id: nat)
      returns (n: RetryNotification?)
    ensures n == null <==> node == "" || key == "" || store == null
    ensures n != null ==>
      && fresh(n) && n.store == store && n.worker == Worker(node, id)
      && n.config == Config(prefix, if policies.Some? then policies.value else 6)
  {
    if node == "" || key == "" || store == null {
      return null;
    }
    var count := if policies.Some? then policies.value else DEFAULT_POLICIES;
    n := new RetryNotification(Config(prefix, count), Worker(node, id), store);
  }
}
