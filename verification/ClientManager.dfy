/** The WebSocket client manager: an event loop, direct kicks and any number of Stop calls share two
    maps. Every section under the manager's lock is one atomic step, and so is every hand-over on an
    unbuffered channel; a client is only a session, a user and whether it has been closed. */
module ClientManager {

  datatype Client = Client(session: string, user: string, id: nat)

  /** The two maps: session to client, and user to session. */
  datatype Tables = Tables(clients: map<string, Client>, userIds: map<string, string>)

  // ---- Sections under the lock ---------------------------------------------------------------

  function Inserted(t: Tables, c: Client): Tables {
    Tables(t.clients[c.session := c], t.userIds[c.user := c.session])
  }

  /** Each removal yields the tables and the clients it closes. */
  function Removed(t: Tables, c: Client): (Tables, set<Client>) {
    if c.session in t.clients then (t.(clients := t.clients - {c.session}), {c}) else (t, {})
  }

  function KickedUser(t: Tables, user: string): (Tables, set<Client>) {
    if user in t.userIds && t.userIds[user] in t.clients then
      var session := t.userIds[user];
      (Tables(t.clients - {session}, t.userIds - {user}), {t.clients[session]})
    else (t, {})
  }

  function KickedSession(t: Tables, session: string): (Tables, set<Client>) {
    if session in t.clients then
      var c := t.clients[session];
      (Tables(t.clients - {session}, t.userIds - {c.user}), {c})
    else (t, {})
  }

  function Users(clients: set<Client>): set<string> {
    set c | c in clients :: c.user
  }

  /** First half of the shutdown: everything leaves the maps at once, to be closed afterwards. */
  function Drained(t: Tables): (Tables, set<Client>) {
    (Tables(map[], t.userIds - Users(t.clients.Values)), t.clients.Values)
  }

  // ---- The system ------------------------------------------------------------------------------

  datatype Loop =
    | NotStarted
    | Selecting
    | Inserting(c: Client)         // received a registration, not yet in the maps
    | Removing(c: Client)          // received an unregistration
    | Stopped                      // saw the stop channel, about to drain
    | LoopClosing(left: set<Client>)
    | LoopReturned

  datatype StopCall = StopDraining | StopClosing(left: set<Client>) | StopReturned

  datatype State = State(
    tables: Tables,
    closed: set<Client>,
    accepted: set<Client>,         // every client whose registration the loop received
    stopping: bool,                // the stop channel is closed
    loop: Loop,
    stops: seq<StopCall>)

  datatype Action =
    | Start
    | Register(c: Client)          // a RegisterClient call hands its client to the loop
    | Insert
    | Unregister(c: Client)
    | Remove
    | SeeStop
    | LoopDrain
    | LoopClose(c: Client)
    | LoopReturn
    | KickUser(user: string)
    | KickSession(session: string)
    | CallStop
    | StopDrain(k: nat)
    | StopClose(k: nat, c: Client)
    | StopReturn(k: nat)

  /** A select takes any ready case, so the loop may still accept after the stop channel is closed. */
  predicate Enabled(s: State, a: Action) {
    match a
    case Start => s.loop.NotStarted?
    case Register(_) => s.loop.Selecting?
    case Unregister(_) => s.loop.Selecting?
    case Insert => s.loop.Inserting?
    case Remove => s.loop.Removing?
    case SeeStop => s.loop.Selecting? && s.stopping
    case LoopDrain => s.loop.Stopped?
    case LoopClose(c) => s.loop.LoopClosing? && c in s.loop.left
    case LoopReturn => s.loop == LoopClosing({})
    case KickUser(_) => true
    case KickSession(_) => true
    case CallStop => true
    case StopDrain(k) => k < |s.stops| && s.stops[k].StopDraining?
    case StopClose(k, c) => k < |s.stops| && s.stops[k].StopClosing? && c in s.stops[k].left
    case StopReturn(k) => k < |s.stops| && s.stops[k] == StopClosing({})
  }

  function Applied(s: State, result: (Tables, set<Client>)): State {
    s.(tables := result.0, closed := s.closed + result.1)
  }

  function Step(s: State, a: Action): State
    requires Enabled(s, a)
  {
    match a
    case Start => s.(loop := Selecting)
    case Register(c) => s.(loop := Inserting(c), accepted := s.accepted + {c})
    case Insert => s.(loop := Selecting, tables := Inserted(s.tables, s.loop.c))
    case Unregister(c) => s.(loop := Removing(c))
    case Remove => Applied(s, Removed(s.tables, s.loop.c)).(loop := Selecting)
    case SeeStop => s.(loop := Stopped)
    case LoopDrain => s.(tables := Drained(s.tables).0, loop := LoopClosing(Drained(s.tables).1))
    case LoopClose(c) => s.(closed := s.closed + {c}, loop := LoopClosing(s.loop.left - {c}))
    case LoopReturn => s.(loop := LoopReturned)
    case KickUser(user) => Applied(s, KickedUser(s.tables, user))
    case KickSession(session) => Applied(s, KickedSession(s.tables, session))
    case CallStop => s.(stopping := true, stops := s.stops + [StopDraining])
    case StopDrain(k) =>
      s.(tables := Drained(s.tables).0, stops := s.stops[k := StopClosing(Drained(s.tables).1)])
    case StopClose(k, c) =>
      s.(closed := s.closed + {c}, stops := s.stops[k := StopClosing(s.stops[k].left - {c})])
    case StopReturn(k) => s.(stops := s.stops[k := StopReturned])
  }

  const INITIAL := State(Tables(map[], map[]), {}, {}, false, NotStarted, [])

  predicate IsRun(s: State, actions: seq<Action>)
    decreases |actions|
  {
    actions == [] || (Enabled(s, actions[0]) && IsRun(Step(s, actions[0]), actions[1..]))
  }

  function After(s: State, actions: seq<Action>): State
    requires IsRun(s, actions)
    decreases |actions|
  {
    if actions == [] then s else After(Step(s, actions[0]), actions[1..])
  }

  /** Session ids are unique among the clients that ever turn up. */
  ghost predicate UniqueSessions(known: set<Client>) {
    forall c, d | c in known && d in known && c.session == d.session :: c == d
  }

  predicate Mentions(a: Action, c: Client) {
    a == Register(c) || a == Unregister(c)
  }

  ghost predicate Among(known: set<Client>, actions: seq<Action>) {
    forall k, c | 0 <= k < |actions| && Mentions(actions[k], c) :: c in known
  }

  // ---- Invariant ---------------------------------------------------------------------------------

  predicate BeingClosed(s: State, c: Client) {
    || (s.loop.LoopClosing? && c in s.loop.left)
    || exists k :: 0 <= k < |s.stops| && s.stops[k].StopClosing? && c in s.stops[k].left
  }

  predicate Listed(t: Tables, c: Client) {
    c.session in t.clients && t.clients[c.session] == c
  }

  predicate Draining(loop: Loop) {
    loop.LoopClosing? || loop.LoopReturned?
  }

  ghost predicate TablesOk(t: Tables, known: set<Client>) {
    && (forall s | s in t.clients :: t.clients[s].session == s && t.clients[s] in known)
    && (forall u, c | u in t.userIds && c in known && c.session == t.userIds[u] :: c.user == u)
  }

  /** An accepted client is about to be listed, listed, closed, or in the hands of someone closing it. */
  predicate Accounted(s: State, c: Client) {
    s.loop == Inserting(c) || Listed(s.tables, c) || c in s.closed || BeingClosed(s, c)
  }

  ghost predicate Inv(s: State, known: set<Client>) {
    && TablesOk(s.tables, known)
    && s.accepted <= known
    && (s.loop.Inserting? || s.loop.Removing? ==> s.loop.c in known)
    && (forall c | c in s.accepted :: Accounted(s, c))
    && (s.loop.Stopped? || Draining(s.loop) ==> s.stopping)
    && (Draining(s.loop) ==> s.tables.clients == map[])
  }

  lemma StepKeepsTables(s: State, known: set<Client>, a: Action)
    requires UniqueSessions(known) && Inv(s, known) && Enabled(s, a)
    ensures TablesOk(Step(s, a).tables, known)
  {
  }

  /** What happens to the entries of the maps: an entry that disappears belongs to a client that is
      then closed or being closed. */
  lemma NobodyIsLost(s: State, known: set<Client>, a: Action, c: Client)
    requires UniqueSessions(known) && Inv(s, known) && Enabled(s, a) && c in known
    requires Listed(s.tables, c) && !Listed(Step(s, a).tables, c)
    ensures c in Step(s, a).closed || BeingClosed(Step(s, a), c)
  {
    var s' := Step(s, a);
    if a.LoopDrain? || a.StopDrain? {
      assert s.tables.clients[c.session] in s.tables.clients.Values;
      if a.StopDrain? {
        assert s'.stops[a.k].StopClosing? && c in s'.stops[a.k].left;
      }
    }
  }

  lemma ClosersFinish(s: State, a: Action, c: Client)
    requires Enabled(s, a) && BeingClosed(s, c)
    ensures c in Step(s, a).closed || BeingClosed(Step(s, a), c)
  {
    var s' := Step(s, a);
    if !(s.loop.LoopClosing? && c in s.loop.left) {
      var k :| 0 <= k < |s.stops| && s.stops[k].StopClosing? && c in s.stops[k].left;
      if !(a == StopClose(k, c)) {
        assert s'.stops[k].StopClosing? && c in s'.stops[k].left;
      }
    }
  }

  lemma StepKeepsAccount(s: State, known: set<Client>, a: Action, c: Client)
    requires UniqueSessions(known) && Inv(s, known) && Enabled(s, a)
    requires c in Step(s, a).accepted && (forall d | Mentions(a, d) :: d in known)
    ensures Accounted(Step(s, a), c)
  {
    if a == Register(c) {
    } else if s.loop == Inserting(c) {
      if !a.Insert? && BeingClosed(s, c) { ClosersFinish(s, a, c); }
    } else if Listed(s.tables, c) {
      if !Listed(Step(s, a).tables, c) { NobodyIsLost(s, known, a, c); }
    } else if BeingClosed(s, c) {
      ClosersFinish(s, a, c);
    }
  }

  lemma StepKeepsInv(s: State, known: set<Client>, a: Action)
    requires UniqueSessions(known) && Inv(s, known) && Enabled(s, a)
    requires forall d | Mentions(a, d) :: d in known
    ensures Inv(Step(s, a), known)
  {
    StepKeepsTables(s, known, a);
    assert forall c | a == Register(c) || a == Unregister(c) :: Mentions(a, c);
    forall c | c in Step(s, a).accepted ensures Accounted(Step(s, a), c) {
      StepKeepsAccount(s, known, a, c);
    }
  }

  lemma {:induction false} RunKeepsInv(s: State, known: set<Client>, actions: seq<Action>)
    requires UniqueSessions(known) && Inv(s, known) && IsRun(s, actions) && Among(known, actions)
    ensures Inv(After(s, actions), known)
    decreases |actions|
  {
    if actions != [] {
      assert forall d | Mentions(actions[0], d) :: d in known;
      StepKeepsInv(s, known, actions[0]);
      assert forall k | 0 <= k < |actions[1..]| :: actions[1..][k] == actions[k + 1];
      RunKeepsInv(Step(s, actions[0]), known, actions[1..]);
    }
  }

  // ---- What holds in every reachable state ---------------------------------------------------------

  /** Map keys are session ids, and a user's entry that leads to a live session leads to that user's
      own client. */
  lemma MapsAreConsistent(known: set<Client>, actions: seq<Action>, session: string, user: string)
    requires UniqueSessions(known) && Among(known, actions) && IsRun(INITIAL, actions)
    ensures var t := After(INITIAL, actions).tables;
      && (session in t.clients ==> t.clients[session].session == session)
      && (user in t.userIds && t.userIds[user] in t.clients ==> t.clients[t.userIds[user]].user == user)
  {
    RunKeepsInv(INITIAL, known, actions);
  }

  /** A kick by user id closes a client of that user or nobody, and takes out no one else. */
  lemma KickHitsOnlyThatUser(known: set<Client>, actions: seq<Action>, user: string, c: Client)
    requires UniqueSessions(known) && Among(known, actions) && IsRun(INITIAL, actions)
    requires var s := After(INITIAL, actions); c.user != user && Listed(s.tables, c)
    ensures var s := After(INITIAL, actions);
      var s' := Step(s, KickUser(user));
      && Listed(s'.tables, c)
      && (forall d | d in s'.closed && d !in s.closed :: d.user == user && Listed(s.tables, d) && !Listed(s'.tables, d))
  {
    RunKeepsInv(INITIAL, known, actions);
  }

  /** Nothing but the entries of this session and this user differs. */
  ghost predicate OnlyTouches(t: Tables, t': Tables, session: string, user: string) {
    && (forall x | x != session :: (x in t'.clients <==> x in t.clients) && (x in t.clients ==> t'.clients[x] == t.clients[x]))
    && (forall u | u != user :: (u in t'.userIds <==> u in t.userIds) && (u in t.userIds ==> t'.userIds[u] == t.userIds[u]))
  }

  /** A kick by user id: if the user's entry leads to a listed client, that client is closed, it is no longer
      listed and the entry is gone; nothing else changes. Otherwise nothing changes at all. */
  lemma KickUserEffect(s: State, user: string)
    ensures var t, s' := s.tables, Step(s, KickUser(user));
      if user in t.userIds && t.userIds[user] in t.clients then
        var c := t.clients[t.userIds[user]];
        && s'.closed == s.closed + {c} && t.userIds[user] !in s'.tables.clients && user !in s'.tables.userIds
        && OnlyTouches(t, s'.tables, t.userIds[user], user)
      else s'.tables == t && s'.closed == s.closed
  {
  }

  /** A kick by session id does the same for that session, and drops the entry of its client's user. */
  lemma KickSessionEffect(s: State, session: string)
    ensures var t, s' := s.tables, Step(s, KickSession(session));
      if session in t.clients then
        var c := t.clients[session];
        && s'.closed == s.closed + {c} && session !in s'.tables.clients && c.user !in s'.tables.userIds
        && OnlyTouches(t, s'.tables, session, c.user)
      else s'.tables == t && s'.closed == s.closed
  {
  }

  /** An unregistration closes the client it names and delists its session if it is listed; the users'
      entries stay. */
  lemma UnregisterEffect(s: State, c: Client)
    requires s.loop == Removing(c)
    ensures var t, s' := s.tables, Step(s, Remove);
      && s'.loop == Selecting && s'.tables.userIds == t.userIds
      && if c.session in t.clients
         then s'.closed == s.closed + {c} && c.session !in s'.tables.clients && OnlyTouches(t, s'.tables, c.session, "")
         else s'.tables == t && s'.closed == s.closed
  {
  }

  /** A registration lists the client and makes its user's entry lead to it. */
  lemma RegisterEffect(s: State, c: Client)
    requires s.loop == Inserting(c)
    ensures var t, s' := s.tables, Step(s, Insert);
      && s'.loop == Selecting && s'.closed == s.closed
      && Listed(s'.tables, c) && c.user in s'.tables.userIds && s'.tables.userIds[c.user] == c.session
      && OnlyTouches(t, s'.tables, c.session, c.user)
  {
  }

  /** In every reachable state a listed client is closed by a kick of its user exactly when the user's
      entry leads to it - a later client of the same user, or a kick by session of one, hides it. */
  lemma KickReachesIff(known: set<Client>, actions: seq<Action>, c: Client)
    requires UniqueSessions(known) && Among(known, actions) && IsRun(INITIAL, actions)
    requires Listed(After(INITIAL, actions).tables, c)
    ensures var s := After(INITIAL, actions);
      (!Listed(Step(s, KickUser(c.user)).tables, c))
      <==> (c.user in s.tables.userIds && s.tables.userIds[c.user] == c.session)
  {
    RunKeepsInv(INITIAL, known, actions);
    KickUserEffect(After(INITIAL, actions), c.user);
  }

  /** Right after its registration a client is reached by a kick of its user. */
  lemma KickAfterRegister(s: State, c: Client)
    requires s.loop == Inserting(c)
    ensures var s' := Step(Step(s, Insert), KickUser(c.user));
      c in s'.closed && c.session !in s'.tables.clients && c.user !in s'.tables.userIds
  {
    RegisterEffect(s, c);
    KickUserEffect(Step(s, Insert), c.user);
  }

  /** Draining takes out every client and the entries of their users, and hands exactly the clients on to
      be closed; entries of users without a listed client stay. */
  lemma DrainEffect(s: State)
    requires s.loop.Stopped?
    ensures var t, s' := s.tables, Step(s, LoopDrain);
      && s'.tables.clients == map[] && s'.loop.LoopClosing?
      && (forall c :: c in s'.loop.left <==> exists x :: x in t.clients && t.clients[x] == c)
      && (forall u :: u in s'.tables.userIds <==>
            u in t.userIds && forall x | x in t.clients :: t.clients[x].user != u)
      && (forall u | u in s'.tables.userIds :: s'.tables.userIds[u] == t.userIds[u])
  {
    var t := s.tables;
    forall u ensures u in Users(t.clients.Values) <==> exists x :: x in t.clients && t.clients[x].user == u {
      if x :| x in t.clients && t.clients[x].user == u {
        assert t.clients[x] in t.clients.Values;
      }
    }
  }

  /** A client that was listed and no longer is has been closed, or whoever took it out is closing it. */
  lemma {:induction false} RemovedMeansClosed(s: State, known: set<Client>, actions: seq<Action>, c: Client)
    requires UniqueSessions(known) && Inv(s, known) && IsRun(s, actions) && Among(known, actions)
    requires c in s.accepted && Listed(s.tables, c) && !Listed(After(s, actions).tables, c)
    requires After(s, actions).loop != Inserting(c)
    ensures c in After(s, actions).closed || BeingClosed(After(s, actions), c)
  {
    RunKeepsInv(s, known, actions);
    AcceptedForever(s, actions);
  }

  lemma {:induction false} AcceptedForever(s: State, actions: seq<Action>)
    requires IsRun(s, actions)
    ensures s.accepted <= After(s, actions).accepted && s.closed <= After(s, actions).closed
    decreases |actions|
  {
    if actions != [] {
      AcceptedForever(Step(s, actions[0]), actions[1..]);
    }
  }

  // ---- Shutdown ------------------------------------------------------------------------------------

  /** Start has returned, and so has every Stop call. */
  predicate AllReturned(s: State) {
    s.loop.LoopReturned? && forall k | 0 <= k < |s.stops| :: s.stops[k].StopReturned?
  }

  /** Once Start has returned the loop accepts nothing more and the map of clients stays empty. */
  lemma {:induction false} ReturnedIsFinal(s: State, known: set<Client>, actions: seq<Action>)
    requires UniqueSessions(known) && Inv(s, known) && s.loop.LoopReturned?
    requires IsRun(s, actions) && Among(known, actions)
    ensures var s' := After(s, actions);
      s'.loop.LoopReturned? && s'.accepted == s.accepted && s'.tables.clients == map[]
    decreases |actions|
  {
    if actions != [] {
      assert forall d | Mentions(actions[0], d) :: d in known;
      StepKeepsInv(s, known, actions[0]);
      assert forall k | 0 <= k < |actions[1..]| :: actions[1..][k] == actions[k + 1];
      ReturnedIsFinal(Step(s, actions[0]), known, actions[1..]);
    }
  }

  /** When Start and every Stop call have returned, no client is listed, every client ever accepted
      is closed, and nothing that happens later changes that. */
  lemma ShutdownIsComplete(known: set<Client>, actions: seq<Action>, later: seq<Action>)
    requires UniqueSessions(known) && Among(known, actions) && Among(known, later)
    requires IsRun(INITIAL, actions) && AllReturned(After(INITIAL, actions))
    requires IsRun(After(INITIAL, actions), later)
    ensures var s, s' := After(INITIAL, actions), After(After(INITIAL, actions), later);
      && s.stopping && s.tables.clients == map[] && s.accepted <= s.closed
      && s'.accepted == s.accepted && s'.tables.clients == map[] && s'.accepted <= s'.closed
  {
    RunKeepsInv(INITIAL, known, actions);
    var s := After(INITIAL, actions);
    forall c | c in s.accepted ensures c in s.closed {
      assert Accounted(s, c);
    }
    ReturnedIsFinal(s, known, later);
    AcceptedForever(s, later);
  }

  lemma RunCons(s: State, a: Action, rest: seq<Action>)
    requires Enabled(s, a) && IsRun(Step(s, a), rest)
    ensures IsRun(s, [a] + rest) && After(s, [a] + rest) == After(Step(s, a), rest)
  {
    assert ([a] + rest)[1..] == rest;
  }

  /** Stop alone is not enough: after it has returned the loop may still accept a client and list it. */
  lemma StopAloneMayLeaveClients(c: Client) returns (actions: seq<Action>)
    ensures IsRun(INITIAL, actions)
    ensures var s := After(INITIAL, actions); s.stops == [StopReturned] && Listed(s.tables, c) && c !in s.closed
  {
    var s1 := Step(INITIAL, Start);
    var s2 := Step(s1, CallStop);
    assert s2.stops == [StopDraining];
    assert s2.tables.clients.Values == {};
    var s3 := Step(s2, StopDrain(0));
    assert s3.stops == [StopClosing({})];
    var s4 := Step(s3, StopReturn(0));
    assert s4.stops == [StopReturned];
    var listing := AcceptRuns(s4, c);
    RunCons(s3, StopReturn(0), listing);
    RunCons(s2, StopDrain(0), [StopReturn(0)] + listing);
    actions := [StopDrain(0)] + ([StopReturn(0)] + listing);
    RunCons(s1, CallStop, actions);
    actions := [CallStop] + actions;
    RunCons(INITIAL, Start, actions);
    actions := [Start] + actions;
  }

  lemma AcceptRuns(s: State, c: Client) returns (actions: seq<Action>)
    requires s.loop.Selecting?
    ensures actions == [Register(c), Insert] && IsRun(s, actions)
    ensures After(s, actions) == s.(tables := Inserted(s.tables, c), accepted := s.accepted + {c})
  {
    var s1 := Step(s, Register(c));
    assert IsRun(Step(s1, Insert), []);
    RunCons(s1, Insert, []);
    RunCons(s, Register(c), [Insert]);
    actions := [Register(c)] + [Insert];
  }

  /** Nothing is listed, and the loop will not list anything any more. */
  predicate Quiet(s: State) {
    s.tables.clients == map[] && (s.loop.Stopped? || Draining(s.loop))
  }

  predicate EmptyAfter(s: State, later: seq<Action>)
    requires IsRun(s, later)
  {
    After(s, later).tables.clients == map[]
  }

  /** No client is listed, now or in anything that may follow. */
  ghost predicate StaysEmpty(s: State) {
    forall later | IsRun(s, later) :: EmptyAfter(s, later)
  }

  lemma {:induction false} QuietStaysEmpty(s: State, actions: seq<Action>)
    requires Quiet(s) && IsRun(s, actions)
    ensures After(s, actions).tables.clients == map[]
    decreases |actions|
  {
    if actions != [] {
      QuietStaysEmpty(Step(s, actions[0]), actions[1..]);
    }
  }

  lemma {:induction false} DrainedIsEmpty(s: State, actions: seq<Action>)
    requires IsRun(s, actions) && (Draining(s.loop) ==> s.tables.clients == map[])
    ensures Draining(After(s, actions).loop) ==> After(s, actions).tables.clients == map[]
    decreases |actions|
  {
    if actions != [] {
      DrainedIsEmpty(Step(s, actions[0]), actions[1..]);
    }
  }

  /** Any state in which the loop can still accept leads to one with a client listed. */
  lemma CanStillList(s: State, c: Client) returns (actions: seq<Action>)
    requires !s.loop.Stopped? && !Draining(s.loop)
    ensures IsRun(s, actions) && After(s, actions).tables.clients != map[]
  {
    var first := if s.loop.NotStarted? then [Start]
                 else if s.loop.Inserting? then [Insert]
                 else if s.loop.Removing? then [Remove] else [];
    if first != [] {
      RunCons(s, first[0], []);
      assert first == [first[0]] + [];
    }
    var s1 := After(s, first);
    var accept := AcceptRuns(s1, c);
    RunConcat(s, first, accept);
    actions := first + accept;
    assert c.session in After(s, actions).tables.clients;
  }

  /** In every reachable state: the map of clients is empty and stays so in all that may follow if and
      only if the loop is draining or has returned, or has seen the stop channel with the map empty.
      Which Stop calls have returned makes no difference. */
  lemma StaysEmptyIff(actions: seq<Action>)
    requires IsRun(INITIAL, actions)
    ensures var s := After(INITIAL, actions);
      StaysEmpty(s) <==> Draining(s.loop) || (s.loop.Stopped? && s.tables.clients == map[])
  {
    var s := After(INITIAL, actions);
    DrainedIsEmpty(INITIAL, actions);
    if Quiet(s) {
      forall later | IsRun(s, later) ensures EmptyAfter(s, later) {
        QuietStaysEmpty(s, later);
      }
    } else if s.loop.Stopped? {
      assert IsRun(s, []) && !EmptyAfter(s, []);
    } else {
      assert !Draining(s.loop);
      var later := CanStillList(s, Client("", "", 0));
      assert IsRun(s, later) && !EmptyAfter(s, later);
    }
  }

  // ---- Sessions must be unique -----------------------------------------------------------------------

  lemma {:induction false} RunConcat(s: State, xs: seq<Action>, ys: seq<Action>)
    requires IsRun(s, xs) && IsRun(After(s, xs), ys)
    ensures IsRun(s, xs + ys) && After(s, xs + ys) == After(After(s, xs), ys)
    decreases |xs|
  {
    if xs == [] {
      assert xs + ys == ys;
    } else {
      RunConcat(Step(s, xs[0]), xs[1..], ys);
      assert (xs + ys)[1..] == xs[1..] + ys;
    }
  }

  predicate NoNewClients(actions: seq<Action>) {
    forall k | 0 <= k < |actions| :: !actions[k].Register? && !actions[k].Unregister?
  }

  /** The loop sees the stop channel with exactly one client listed: it closes that client and returns. */
  lemma LoopShutdownRuns(s: State, c: Client) returns (actions: seq<Action>)
    requires s.loop.Selecting? && s.stopping && s.tables.clients == map[c.session := c]
    ensures IsRun(s, actions) && NoNewClients(actions)
    ensures After(s, actions)
      == s.(tables := Drained(s.tables).0, closed := s.closed + {c}, loop := LoopReturned)
  {
    var s1 := Step(s, SeeStop);
    assert s1.tables.clients[c.session] == c;
    assert Drained(s1.tables).1 == {c};
    var s2 := Step(s1, LoopDrain);
    var s3 := Step(s2, LoopClose(c));
    assert s3.loop == LoopClosing({});
    RunCons(s3, LoopReturn, []);
    RunCons(s2, LoopClose(c), [LoopReturn] + []);
    actions := [LoopClose(c)] + ([LoopReturn] + []);
    RunCons(s1, LoopDrain, actions);
    actions := [LoopDrain] + actions;
    RunCons(s, SeeStop, actions);
    actions := [SeeStop] + actions;
  }

  /** A Stop call that finds nothing to close. */
  lemma EmptyStopRuns(s: State) returns (actions: seq<Action>)
    requires s.stops == [StopDraining] && s.tables.clients == map[]
    ensures IsRun(s, actions) && NoNewClients(actions)
    ensures After(s, actions) == s.(tables := Drained(s.tables).0, stops := [StopReturned])
  {
    assert Drained(s.tables).1 == {};
    var s1 := Step(s, StopDrain(0));
    assert s1.stops == [StopClosing({})];
    RunCons(s1, StopReturn(0), []);
    RunCons(s, StopDrain(0), [StopReturn(0)] + []);
    actions := [StopDrain(0)] + ([StopReturn(0)] + []);
  }

  /** A whole shutdown with exactly one client listed: that client is closed, and nobody else. */
  lemma ShutdownRuns(s: State, c: Client) returns (actions: seq<Action>)
    requires s.loop.Selecting? && s.stops == [] && s.tables.clients == map[c.session := c]
    ensures IsRun(s, actions) && NoNewClients(actions)
    ensures var s' := After(s, actions);
      AllReturned(s') && s'.accepted == s.accepted && s'.closed == s.closed + {c}
  {
    var s1 := Step(s, CallStop);
    assert s1.stops == [StopDraining];
    var loop := LoopShutdownRuns(s1, c);
    var stop := EmptyStopRuns(After(s1, loop));
    RunConcat(s1, loop, stop);
    RunCons(s, CallStop, loop + stop);
    actions := [CallStop] + (loop + stop);
  }

  /** Two clients under one session id: the second overwrites the first, which is never closed. */
  lemma SharedSessionIsLost(c: Client, d: Client) returns (actions: seq<Action>)
    requires c != d && c.session == d.session
    ensures IsRun(INITIAL, actions)
    ensures forall k, e | 0 <= k < |actions| && Mentions(actions[k], e) :: e == c || e == d
    ensures var s := After(INITIAL, actions); AllReturned(s) && c in s.accepted && c !in s.closed
  {
    var s1 := Step(INITIAL, Start);
    var first := AcceptRuns(s1, c);
    var s2 := After(s1, first);
    var second := AcceptRuns(s2, d);
    var s3 := After(s2, second);
    assert s3.tables.clients == map[d.session := d];
    var finish := ShutdownRuns(s3, d);
    RunConcat(s2, second, finish);
    RunConcat(s1, first, second + finish);
    RunCons(INITIAL, Start, first + (second + finish));
    actions := [Start] + (first + (second + finish));
  }

  /** If Start and every Stop call have returned, every accepted client is closed. */
  ghost predicate ClosesAll(actions: seq<Action>)
    requires IsRun(INITIAL, actions)
  {
    var s := After(INITIAL, actions);
    AllReturned(s) ==> s.accepted <= s.closed
  }

  /** No client is left open by any run if and only if no two clients share a session id. */
  lemma ClosesAllIff(known: set<Client>)
    ensures UniqueSessions(known)
      <==> forall actions | IsRun(INITIAL, actions) && Among(known, actions) :: ClosesAll(actions)
  {
    if UniqueSessions(known) {
      forall actions | IsRun(INITIAL, actions) && Among(known, actions) ensures ClosesAll(actions) {
        if AllReturned(After(INITIAL, actions)) {
          ShutdownIsComplete(known, actions, []);
        }
      }
    } else {
      var c, d :| c in known && d in known && c.session == d.session && c != d;
      var actions := SharedSessionIsLost(c, d);
      assert Among(known, actions);
      assert c in After(INITIAL, actions).accepted && c !in After(INITIAL, actions).closed;
      assert !ClosesAll(actions);
    }
  }

  // ---- The object ------------------------------------------------------------------------------------

  /** The manager's maps, updated in place; `closed` holds the clients whose connection was closed. */
  class Manager {
    var clients: map<string, Client>
    var userIdMap: map<string, string>
    var closed: set<Client>

    constructor ()
      ensures Contents() == Tables(map[], map[]) && closed == {}
    {
      clients, userIdMap, closed := map[], map[], {};
    }

    function Contents(): Tables
      reads this
    {
      Tables(clients, userIdMap)
    }

    method InsertClient(c: Client)
      modifies this
      ensures Contents() == Inserted(old(Contents()), c) && closed == old(closed)
    {
      clients := clients[c.session := c];
      userIdMap := userIdMap[c.user := c.session];
    }

    method RemoveClient(c: Client)
      modifies this
      ensures Contents() == Removed(old(Contents()), c).0
      ensures closed == old(closed) + Removed(old(Contents()), c).1
    {
      if c.session in clients {
        closed := closed + {c};
        clients := clients - {c.session};
      }
    }

    method KickClientByUserId(user: string)
      modifies this
      ensures Contents() == KickedUser(old(Contents()), user).0
      ensures closed == old(closed) + KickedUser(old(Contents()), user).1
    {
      if user in userIdMap {
        var session := userIdMap[user];
        if session in clients {
          closed := closed + {clients[session]};
          clients := clients - {session};
          userIdMap := userIdMap - {user};
        }
      }
    }

    method KickClientBySessionId(session: string)
      modifies this
      ensures Contents() == KickedSession(old(Contents()), session).0
      ensures closed == old(closed) + KickedSession(old(Contents()), session).1
    {
      if session in clients {
        var c := clients[session];
        closed := closed + {c};
        clients := clients - {session};
        userIdMap := userIdMap - {c.user};
      }
    }

    /** The locked half of the shutdown: walks the map in any order, emptying it as it goes. */
    method TakeAll() returns (taken: set<Client>)
      modifies this`clients, this`userIdMap
      ensures (Contents(), taken) == Drained(old(Contents()))
    {
      taken := {};
      while clients.Keys != {}
        invariant clients.Keys <= old(clients).Keys
        invariant forall s | s in clients :: clients[s] == old(clients)[s]
        invariant taken == set s | s in old(clients) && s !in clients :: old(clients)[s]
        invariant userIdMap == old(userIdMap) - Users(taken)
        decreases clients.Keys
      {
        var session :| session in clients.Keys;
        var c := clients[session];
        taken := taken + {c};
        clients := clients - {session};
        userIdMap := userIdMap - {c.user};
        assert Users(taken) == Users(taken - {c}) + {c.user};
      }
      assert taken == old(clients).Values;
    }

    /** Closes the clients taken out, one after the other. */
    method CloseAll(taken: set<Client>)
      modifies this`closed
      ensures closed == old(closed) + taken
    {
      var left := taken;
      while left != {}
        invariant left <= taken && closed == old(closed) + (taken - left)
        decreases left
      {
        var c :| c in left;
        closed := closed + {c};
        left := left - {c};
      }
    }
  }
}
