/** Single-flight calls: concurrent calls for one key share one execution of the function.
    The mutex-protected sections, the write of the result, the release of the waiters and
    their reads are separate atomic steps, interleaved in any order by any number of callers. */
module SharedCalls {
  import opened Common

  /** What the function yields: a value and an error. */
  datatype Reply = Reply(val: string, err: string)

  /** The shared call record: its result once written, and whether waiters have been released. */
  datatype Record = Record(key: string, owner: nat, reply: Option<Reply>, done: bool)

  /** Records are only ever added; the index in `records` is a record's identity. */
  datatype Shared = Shared(records: seq<Record>, calls: map<string, nat>)

  /** Where a caller is. The first four follow the executing caller, the next two a sharing one. */
  datatype Pc =
    | Idle
    | Running(r: nat)      // inserted its record, executing the function
    | Written(r: nat)      // stored the result
    | Signalled(r: nat)    // released the waiters, record still in the map
    | Waiting(r: nat)      // found a record, blocked on it
    | Woken(r: nat)        // released, about to read the result
    | Returned(r: nat, reply: Reply, executed: bool)

  datatype Caller = Caller(key: string, pc: Pc)
  datatype State = State(shared: Shared, callers: seq<Caller>)

  datatype Action =
    | Enter(me: nat)
    | Finish(me: nat, reply: Reply)
    | Release(me: nat)
    | Delete(me: nat)
    | Wake(me: nat)
    | Read(me: nat)

  // ---- The steps on the shared part -----------------------------------------------------

  function Entered(sh: Shared, me: nat, key: string): (Shared, Pc) {
    if key in sh.calls then (sh, Waiting(sh.calls[key]))
    else
      (Shared(sh.records + [Record(key, me, None, false)], sh.calls[key := |sh.records|]),
       Running(|sh.records|))
  }

  function Stored(sh: Shared, r: nat, reply: Reply): Shared
    requires r < |sh.records|
  {
    sh.(records := sh.records[r := sh.records[r].(reply := Some(reply))])
  }

  function Released(sh: Shared, r: nat): Shared
    requires r < |sh.records|
  {
    sh.(records := sh.records[r := sh.records[r].(done := true)])
  }

  function Deleted(sh: Shared, key: string): Shared {
    sh.(calls := sh.calls - {key})
  }

  // ---- The system -------------------------------------------------------------------------

  /** The actions a caller can take; a waiting caller is blocked until its record is released. */
  ghost predicate Enabled(s: State, a: Action) {
    && a.me < |s.callers|
    && var pc := s.callers[a.me].pc;
      match a
      case Enter(_) => pc.Idle?
      case Finish(_, _) => pc.Running? && pc.r < |s.shared.records|
      case Release(_) => pc.Written? && pc.r < |s.shared.records|
      case Delete(_) => pc.Signalled? && pc.r < |s.shared.records| && s.shared.records[pc.r].reply.Some?
      case Wake(_) => pc.Waiting? && pc.r < |s.shared.records| && s.shared.records[pc.r].done
      case Read(_) => pc.Woken? && pc.r < |s.shared.records| && s.shared.records[pc.r].reply.Some?
  }

  ghost function Step(s: State, a: Action): State
    requires Enabled(s, a)
  {
    var me, sh := s.callers[a.me], s.shared;
    match a
    case Enter(_) =>
      var (sh', pc) := Entered(sh, a.me, me.key);
      State(sh', s.callers[a.me := me.(pc := pc)])
    case Finish(_, reply) =>
      State(Stored(sh, me.pc.r, reply), s.callers[a.me := me.(pc := Written(me.pc.r))])
    case Release(_) =>
      State(Released(sh, me.pc.r), s.callers[a.me := me.(pc := Signalled(me.pc.r))])
    case Delete(_) =>
      State(Deleted(sh, me.key),
            s.callers[a.me := me.(pc := Returned(me.pc.r, sh.records[me.pc.r].reply.value, true))])
    case Wake(_) =>
      s.(callers := s.callers[a.me := me.(pc := Woken(me.pc.r))])
    case Read(_) =>
      s.(callers := s.callers[a.me := me.(pc := Returned(me.pc.r, sh.records[me.pc.r].reply.value, false))])
  }

  function Initial(keys: seq<string>): State {
    State(Shared([], map[]), seq(|keys|, i requires 0 <= i < |keys| => Caller(keys[i], Idle)))
  }

  ghost predicate IsRun(s: State, actions: seq<Action>)
    decreases |actions|
  {
    actions == [] || (Enabled(s, actions[0]) && IsRun(Step(s, actions[0]), actions[1..]))
  }

  ghost function After(s: State, actions: seq<Action>): State
    requires IsRun(s, actions)
    decreases |actions|
  {
    if actions == [] then s else After(Step(s, actions[0]), actions[1..])
  }

  // ---- Invariant ------------------------------------------------------------------------------

  predicate Owns(pc: Pc, r: nat) {
    pc == Running(r) || pc == Written(r) || pc == Signalled(r)
  }

  predicate Holds(pc: Pc, r: nat) {
    !pc.Idle? && pc.r == r
  }

  ghost predicate CallerOk(sh: Shared, id: nat, c: Caller) {
    c.pc.Idle? ||
    (&& c.pc.r < |sh.records|
     && var rec := sh.records[c.pc.r];
       && rec.key == c.key
       && match c.pc {
            case Running(r) => rec.owner == id && InMap(sh, c.key, r) && rec.reply.None? && !rec.done
            case Written(r) => rec.owner == id && InMap(sh, c.key, r) && rec.reply.Some? && !rec.done
            case Signalled(r) => rec.owner == id && InMap(sh, c.key, r) && rec.done
            case Waiting(r) => rec.owner != id
            case Woken(r) => rec.owner != id && rec.done
            case Returned(r, reply, executed) =>
              rec.done && rec.reply == Some(reply) && executed == (rec.owner == id)
          })
  }

  ghost predicate InMap(sh: Shared, key: string, r: nat) {
    key in sh.calls && sh.calls[key] == r
  }

  ghost predicate RecordOk(s: State, r: nat)
    requires r < |s.shared.records|
  {
    var rec := s.shared.records[r];
    && rec.owner < |s.callers|
    && Holds(s.callers[rec.owner].pc, r)
    && (rec.done ==> rec.reply.Some?)
    && (!rec.done ==> s.callers[rec.owner].pc == Running(r) || s.callers[rec.owner].pc == Written(r))
  }

  ghost predicate MapOk(s: State, key: string)
    requires key in s.shared.calls
  {
    var r := s.shared.calls[key];
    && r < |s.shared.records|
    && s.shared.records[r].key == key
    && s.shared.records[r].owner < |s.callers|
    && Owns(s.callers[s.shared.records[r].owner].pc, r)
  }

  ghost predicate Inv(s: State) {
    && (forall i | 0 <= i < |s.callers| :: CallerOk(s.shared, i, s.callers[i]))
    && (forall r | 0 <= r < |s.shared.records| :: RecordOk(s, r))
    && (forall key | key in s.shared.calls :: MapOk(s, key))
  }

  lemma StepKeepsCaller(s: State, a: Action, i: nat)
    requires Inv(s) && Enabled(s, a) && i < |s.callers|
    ensures CallerOk(Step(s, a).shared, i, Step(s, a).callers[i])
  {
    var me := s.callers[a.me];
    assert CallerOk(s.shared, a.me, me) && CallerOk(s.shared, i, s.callers[i]);
    if a.Enter? {
      if me.key in s.shared.calls {
        assert MapOk(s, me.key);
      }
    } else {
      assert RecordOk(s, me.pc.r);
    }
  }

  lemma StepKeepsRecord(s: State, a: Action, r: nat)
    requires Inv(s) && Enabled(s, a) && r < |Step(s, a).shared.records|
    ensures RecordOk(Step(s, a), r)
  {
    assert CallerOk(s.shared, a.me, s.callers[a.me]);
    if r < |s.shared.records| {
      assert RecordOk(s, r);
    }
  }

  lemma StepKeepsMap(s: State, a: Action, key: string)
    requires Inv(s) && Enabled(s, a) && key in Step(s, a).shared.calls
    ensures MapOk(Step(s, a), key)
  {
    assert CallerOk(s.shared, a.me, s.callers[a.me]);
    if key in s.shared.calls {
      assert MapOk(s, key);
    }
  }

  lemma StepKeepsInv(s: State, a: Action)
    requires Inv(s) && Enabled(s, a)
    ensures Inv(Step(s, a))
  {
    var s' := Step(s, a);
    forall i | 0 <= i < |s'.callers| ensures CallerOk(s'.shared, i, s'.callers[i]) {
      StepKeepsCaller(s, a, i);
    }
    forall r | 0 <= r < |s'.shared.records| ensures RecordOk(s', r) {
      StepKeepsRecord(s, a, r);
    }
    forall key | key in s'.shared.calls ensures MapOk(s', key) {
      StepKeepsMap(s, a, key);
    }
  }

  lemma {:induction false} RunKeepsInv(s: State, actions: seq<Action>)
    requires Inv(s) && IsRun(s, actions)
    ensures Inv(After(s, actions))
    decreases |actions|
  {
    if actions != [] {
      StepKeepsInv(s, actions[0]);
      RunKeepsInv(Step(s, actions[0]), actions[1..]);
    }
  }

  lemma ReachableInv(keys: seq<string>, actions: seq<Action>)
    requires IsRun(Initial(keys), actions)
    ensures Inv(After(Initial(keys), actions))
  {
    RunKeepsInv(Initial(keys), actions);
  }

  // ---- Safety -----------------------------------------------------------------------------------

  /** Executions of the function for one key never overlap. */
  lemma NoOverlap(keys: seq<string>, actions: seq<Action>, i: nat, j: nat)
    requires IsRun(Initial(keys), actions)
    requires var s := After(Initial(keys), actions);
      && i < |s.callers| && j < |s.callers| && s.callers[i].key == s.callers[j].key
      && s.callers[i].pc.Running? && s.callers[j].pc.Running?
    ensures i == j
  {
    ReachableInv(keys, actions);
    var s := After(Initial(keys), actions);
    assert CallerOk(s.shared, i, s.callers[i]) && CallerOk(s.shared, j, s.callers[j]);
  }

  /** The delete removes the deleting caller's own record, and nothing else. */
  lemma DeleteRemovesOwnRecord(keys: seq<string>, actions: seq<Action>, me: nat)
    requires IsRun(Initial(keys), actions) && Enabled(After(Initial(keys), actions), Delete(me))
    ensures var s := After(Initial(keys), actions);
      var s' := Step(s, Delete(me));
      var key := s.callers[me].key;
      && key in s.shared.calls && s.shared.calls[key] == s.callers[me].pc.r
      && s.shared.records[s.shared.calls[key]].owner == me
      && key !in s'.shared.calls
      && (forall k | k != key :: k in s'.shared.calls <==> k in s.shared.calls)
      && (forall k | k in s'.shared.calls :: s'.shared.calls[k] == s.shared.calls[k])
  {
    ReachableInv(keys, actions);
    var s := After(Initial(keys), actions);
    assert CallerOk(s.shared, me, s.callers[me]);
  }

  /** Once written, a record's result never changes again, whatever happens. */
  lemma {:induction false} ResultsAreFinal(s: State, actions: seq<Action>, r: nat)
    requires Inv(s) && IsRun(s, actions) && r < |s.shared.records| && s.shared.records[r].reply.Some?
    ensures var s' := After(s, actions);
      r < |s'.shared.records| && s'.shared.records[r].reply == s.shared.records[r].reply
    decreases |actions|
  {
    if actions != [] {
      var a := actions[0];
      assert CallerOk(s.shared, a.me, s.callers[a.me]);
      StepKeepsInv(s, a);
      ResultsAreFinal(Step(s, a), actions[1..], r);
    }
  }

  /** Every caller returns the result its record's owner stored; it says it executed the function
      exactly when it is that owner; and no two callers of one record both say so. */
  lemma ReturnsAgree(keys: seq<string>, actions: seq<Action>, i: nat, j: nat)
    requires IsRun(Initial(keys), actions)
    requires var s := After(Initial(keys), actions);
      && i < |s.callers| && j < |s.callers|
      && s.callers[i].pc.Returned? && s.callers[j].pc.Returned? && s.callers[i].pc.r == s.callers[j].pc.r
    ensures var s := After(Initial(keys), actions);
      var a, b := s.callers[i].pc, s.callers[j].pc;
      && a.r < |s.shared.records| && s.shared.records[a.r].reply == Some(a.reply)
      && s.callers[i].key == s.callers[j].key == s.shared.records[a.r].key
      && a.reply == b.reply
      && (a.executed <==> s.shared.records[a.r].owner == i)
      && (a.executed && b.executed ==> i == j)
  {
    ReachableInv(keys, actions);
    var s := After(Initial(keys), actions);
    assert CallerOk(s.shared, i, s.callers[i]) && CallerOk(s.shared, j, s.callers[j]);
  }

  lemma {:induction false} OwnersAreFinal(s: State, actions: seq<Action>, r: nat)
    requires IsRun(s, actions) && r < |s.shared.records|
    ensures var s' := After(s, actions);
      && r < |s'.shared.records| && s'.shared.records[r].owner == s.shared.records[r].owner
      && s'.shared.records[r].key == s.shared.records[r].key
    decreases |actions|
  {
    if actions != [] {
      OwnersAreFinal(Step(s, actions[0]), actions[1..], r);
    }
  }

  /** Who finished executing the function for record `r` in the course of a run, and what it yielded. */
  ghost function Executions(s: State, actions: seq<Action>, r: nat): seq<(nat, Reply)>
    requires IsRun(s, actions)
    decreases |actions|
  {
    if actions == [] then []
    else
      var a, rest := actions[0], Executions(Step(s, actions[0]), actions[1..], r);
      if a.Finish? && s.callers[a.me].pc == Running(r) then [(a.me, a.reply)] + rest else rest
  }

  /** From any consistent state: a record without a result that has one later was executed once in
      between, by its owner, and that execution yielded the result; no other record was executed. */
  lemma {:induction false} ExecutedOnce(s: State, actions: seq<Action>, r: nat)
    requires Inv(s) && IsRun(s, actions)
    ensures var s' := After(s, actions);
      Executions(s, actions, r) ==
        if r >= |s'.shared.records| || s'.shared.records[r].reply.None? then []
        else if r < |s.shared.records| && s.shared.records[r].reply.Some? then []
        else [(s'.shared.records[r].owner, s'.shared.records[r].reply.value)]
    decreases |actions|
  {
    if actions != [] {
      var a, s1 := actions[0], Step(s, actions[0]);
      assert CallerOk(s.shared, a.me, s.callers[a.me]);
      StepKeepsInv(s, a);
      ExecutedOnce(s1, actions[1..], r);
      if r < |s1.shared.records| {
        OwnersAreFinal(s1, actions[1..], r);
        if s1.shared.records[r].reply.Some? {
          ResultsAreFinal(s1, actions[1..], r);
        }
      }
    }
  }

  /** What a caller returns is what the function yielded in the one execution for its record, by the
      record's owner, which asked for the same key. */
  lemma ReturnsWhatWasExecuted(keys: seq<string>, actions: seq<Action>, i: nat)
    requires IsRun(Initial(keys), actions)
    requires var s := After(Initial(keys), actions); i < |s.callers| && s.callers[i].pc.Returned?
    ensures var s := After(Initial(keys), actions);
      var (r, reply) := (s.callers[i].pc.r, s.callers[i].pc.reply);
      && r < |s.shared.records| && s.shared.records[r].owner < |s.callers|
      && s.callers[s.shared.records[r].owner].key == s.callers[i].key
      && Executions(Initial(keys), actions, r) == [(s.shared.records[r].owner, reply)]
  {
    ReachableInv(keys, actions);
    var s := After(Initial(keys), actions);
    var r := s.callers[i].pc.r;
    assert CallerOk(s.shared, i, s.callers[i]) && RecordOk(s, r);
    assert CallerOk(s.shared, s.shared.records[r].owner, s.callers[s.shared.records[r].owner]);
    ExecutedOnce(Initial(keys), actions, r);
  }

  /** A result is only read after it was written, and by a caller that does not own the record. */
  lemma ReadsFollowTheWrite(keys: seq<string>, actions: seq<Action>, me: nat)
    requires IsRun(Initial(keys), actions)
    requires var s := After(Initial(keys), actions); me < |s.callers| && s.callers[me].pc.Woken?
    ensures var s := After(Initial(keys), actions);
      && Enabled(s, Read(me))
      && s.shared.records[s.callers[me].pc.r].done
      && s.shared.records[s.callers[me].pc.r].owner != me
  {
    ReachableInv(keys, actions);
    var s := After(Initial(keys), actions);
    assert CallerOk(s.shared, me, s.callers[me]);
    assert RecordOk(s, s.callers[me].pc.r);
  }

  // ---- Progress -----------------------------------------------------------------------------------

  function StepsLeft(pc: Pc): nat {
    match pc
    case Idle => 4
    case Running(_) => 3
    case Written(_) => 2
    case Signalled(_) => 1
    case Waiting(_) => 2
    case Woken(_) => 1
    case Returned(_, _, _) => 0
  }

  function TotalLeft(callers: seq<Caller>): nat {
    if callers == [] then 0 else TotalLeft(callers[..|callers| - 1]) + StepsLeft(callers[|callers| - 1].pc)
  }

  lemma {:induction false} TotalLeftUpdate(callers: seq<Caller>, i: nat, c: Caller)
    requires i < |callers|
    ensures TotalLeft(callers[i := c]) == TotalLeft(callers) - StepsLeft(callers[i].pc) + StepsLeft(c.pc)
  {
    var n := |callers| - 1;
    if i < n {
      TotalLeftUpdate(callers[..n], i, c);
      assert callers[i := c][..n] == callers[..n][i := c];
    } else {
      assert callers[i := c][..n] == callers[..n];
    }
  }

  lemma {:induction false} TotalLeftInitial(callers: seq<Caller>)
    requires forall i | 0 <= i < |callers| :: callers[i].pc.Idle?
    ensures TotalLeft(callers) == 4 * |callers|
  {
    if callers != [] {
      TotalLeftInitial(callers[..|callers| - 1]);
    }
  }

  /** The measure strictly decreases on every step. */
  lemma StepDecreases(s: State, a: Action)
    requires Enabled(s, a)
    ensures TotalLeft(Step(s, a).callers) < TotalLeft(s.callers)
  {
    TotalLeftUpdate(s.callers, a.me, Step(s, a).callers[a.me]);
  }

  lemma {:induction false} RunIsShort(s: State, actions: seq<Action>)
    requires IsRun(s, actions)
    ensures |actions| + TotalLeft(After(s, actions).callers) <= TotalLeft(s.callers)
    decreases |actions|
  {
    if actions != [] {
      StepDecreases(s, actions[0]);
      RunIsShort(Step(s, actions[0]), actions[1..]);
    }
  }

  /** As long as some caller has not returned, some step is enabled: nobody waits for a record
      whose owner cannot move. */
  lemma NeverStuck(keys: seq<string>, actions: seq<Action>, i: nat, reply: Reply) returns (a: Action)
    requires IsRun(Initial(keys), actions)
    requires var s := After(Initial(keys), actions); i < |s.callers| && !s.callers[i].pc.Returned?
    ensures Enabled(After(Initial(keys), actions), a)
  {
    ReachableInv(keys, actions);
    var s := After(Initial(keys), actions);
    var pc := s.callers[i].pc;
    assert CallerOk(s.shared, i, s.callers[i]);
    if !pc.Idle? { assert RecordOk(s, pc.r); }
    match pc
    case Idle => a := Enter(i);
    case Running(_) => a := Finish(i, reply);
    case Written(_) => a := Release(i);
    case Signalled(_) => a := Delete(i);
    case Woken(_) => a := Read(i);
    case Waiting(r) =>
      var owner := s.shared.records[r].owner;
      if s.shared.records[r].done {
        a := Wake(i);
      } else if s.callers[owner].pc.Running? {
        a := Finish(owner, reply);
      } else {
        a := Release(owner);
      }
  }

  lemma CallInFlight(s: State, key: string)
    requires Inv(s) && key in s.shared.calls
    ensures exists i :: 0 <= i < |s.callers| && !s.callers[i].pc.Returned?
  {
    assert MapOk(s, key);
    var owner := s.shared.records[s.shared.calls[key]].owner;
    assert !s.callers[owner].pc.Returned?;
  }

  /** Every run of n callers has at most 4n steps, and one that cannot be continued has brought
      every caller home, with exactly one executing caller for each record and an empty map. */
  lemma RunsFinish(keys: seq<string>, actions: seq<Action>)
    requires IsRun(Initial(keys), actions)
    ensures |actions| <= 4 * |keys|
    ensures var s := After(Initial(keys), actions);
      (forall a :: !Enabled(s, a)) ==>
        && (forall i | 0 <= i < |s.callers| :: s.callers[i].pc.Returned?)
        && s.shared.calls == map[]
        && (forall r | 0 <= r < |s.shared.records| ::
             var owner := s.shared.records[r].owner;
             && owner < |s.callers| && s.callers[owner].pc.r == r && s.callers[owner].pc.executed
             && forall i | 0 <= i < |s.callers| && s.callers[i].pc.r == r && s.callers[i].pc.executed ::
                  i == owner)
  {
    RunIsShort(Initial(keys), actions);
    TotalLeftInitial(Initial(keys).callers);
    var s := After(Initial(keys), actions);
    if forall a :: !Enabled(s, a) {
      forall i | 0 <= i < |s.callers| ensures s.callers[i].pc.Returned? {
        if !s.callers[i].pc.Returned? {
          var a := NeverStuck(keys, actions, i, Reply("", ""));
        }
      }
      ReachableInv(keys, actions);
      forall key | key in s.shared.calls ensures false {
        CallInFlight(s, key);
      }
      forall r | 0 <= r < |s.shared.records|
        ensures var owner := s.shared.records[r].owner;
          && owner < |s.callers| && s.callers[owner].pc.r == r && s.callers[owner].pc.executed
          && forall i | 0 <= i < |s.callers| && s.callers[i].pc.r == r && s.callers[i].pc.executed :: i == owner
      {
        assert RecordOk(s, r);
        forall i | 0 <= i < |s.callers| && s.callers[i].pc.r == r
          ensures s.callers[i].pc.executed == (i == s.shared.records[r].owner)
        {
          assert CallerOk(s.shared, i, s.callers[i]);
        }
      }
    }
  }

  // ---- The object -----------------------------------------------------------------------------------

  /** The shared object: its records and the map of calls in flight, updated in place. */
  class Calls {
    var records: seq<Record>
    var calls: map<string, nat>

    constructor ()
      ensures Contents() == Shared([], map[])
    {
      records, calls := [], map[];
    }

    function Contents(): Shared
      reads this
    {
      Shared(records, calls)
    }

    /** First critical section: join the call in flight, or start one. */
    method Join(me: nat, key: string) returns (pc: Pc)
      modifies this
      ensures (Contents(), pc) == Entered(old(Contents()), me, key)
    {
      if key in calls {
        return Waiting(calls[key]);
      }
      var r := |records|;
      records := records + [Record(key, me, None, false)];
      calls := calls[key := r];
      return Running(r);
    }

    method Store(r: nat, reply: Reply)
      requires r < |records|
      modifies this
      ensures Contents() == Stored(old(Contents()), r, reply)
    {
      records := records[r := records[r].(reply := Some(reply))];
    }

    method ReleaseWaiters(r: nat)
      requires r < |records|
      modifies this
      ensures Contents() == Released(old(Contents()), r)
    {
      records := records[r := records[r].(done := true)];
    }

    /** Second critical section of the executing caller. */
    method Remove(key: string)
      modifies this
      ensures Contents() == Deleted(old(Contents()), key)
    {
      calls := calls - {key};
    }
  }
}
