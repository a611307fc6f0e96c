/** Registering services with an APISIX gateway: an upstream and a list of routes per service, written
    one request at a time to a remote admin store, with local tracking of the route ids to clean up.
    Any admin request may fail, before or after it took effect on the store. */
module ApisixGateway {
  import opened Common
  import opened Decimal

  datatype Upstream = Upstream(kind: string, nodes: map<string, int>, scheme: string)
  datatype Route = Route(name: string, uri: string, methods: seq<string>, upstream: Option<Upstream>)
  datatype Service = Service(id: string, name: string, upstream: Upstream, routes: seq<Route>)

  // ---- Request bodies ------------------------------------------------------------------------

  datatype UpstreamBody = UpstreamBody(kind: string, nodes: map<string, int>, name: string, scheme: Option<string>)
  datatype Target = Inline(body: UpstreamBody) | ById(id: string)
  datatype RouteBody = RouteBody(uri: string, name: string, status: int, target: Target, methods: Option<seq<string>>)

  function ToUpstreamBody(u: Upstream, name: string): UpstreamBody {
    UpstreamBody(u.kind, u.nodes, name, if u.scheme != "" then Some(u.scheme) else None)
  }

  predicate HasSuffix(s: string, suffix: string) {
    |s| >= |suffix| && s[|s| - |suffix|..] == suffix
  }

  /** A trailing star always follows a slash; anything else is left alone. */
  function NormalizedURI(uri: string): (r: string)
    ensures HasSuffix(uri, "*") ==> HasSuffix(r, "/*")
    ensures r != uri ==> |uri| >= 1 && |r| == |uri| + 1 && r[..|uri| - 1] == uri[..|uri| - 1]
    ensures !HasSuffix(uri, "*") || HasSuffix(uri, "/*") ==> r == uri
  {
    if HasSuffix(uri, "*") && !HasSuffix(uri, "/*") then uri[..|uri| - 1] + "/*" else uri
  }

  function BodyOf(svc: Service, i: nat): RouteBody
    requires i < |svc.routes|
  {
    var route := svc.routes[i];
    RouteBody(NormalizedURI(route.uri), route.name, 1,
              if route.upstream.Some? then Inline(ToUpstreamBody(route.upstream.value, route.name)) else ById(svc.id),
              if |route.methods| > 0 then Some(route.methods) else None)
  }

  /** `<service>-route-<index>` */
  function RouteID(id: string, i: nat): string {
    Tagged(id + "-route", i)
  }

  /** A route id tells its service and its index. */
  lemma RouteIDInjective(a: string, i: nat, b: string, j: nat)
    requires RouteID(a, i) == RouteID(b, j)
    ensures a == b && i == j
  {
    TaggedInjective(a + "-route", i, b + "-route", j);
    assert a == (a + "-route")[..|a|] && b == (b + "-route")[..|b|];
  }

  lemma RouteIDsDiffer(id: string, i: nat, j: nat)
    requires i != j
    ensures RouteID(id, i) != RouteID(id, j)
  {
    if RouteID(id, i) == RouteID(id, j) {
      RouteIDInjective(id, i, id, j);
    }
  }

  ghost predicate RouteOf(id: string, key: string) {
    exists i: nat :: key == RouteID(id, i)
  }

  // ---- The store and the requests ------------------------------------------------------------

  datatype Remote = Remote(upstreams: map<string, UpstreamBody>, routes: map<string, RouteBody>)

  datatype State = State(remote: Remote, tracked: map<string, seq<string>>)

  function Put<V>(m: map<string, V>, key: string, v: V, fate: Fate): map<string, V> {
    if fate.NotDone? then m else m[key := v]
  }

  function Deleted<V>(m: map<string, V>, key: string, fate: Fate): map<string, V> {
    if fate.NotDone? then m else m - {key}
  }

  /** Deleting something that is not there is answered with an error. */
  predicate DeleteOk<V>(m: map<string, V>, key: string, fate: Fate) {
    key in m && fate.Done?
  }

  // ---- Interleaved calls -------------------------------------------------------------------------

  /** Where the call in progress for a service is. */
  datatype Activity =
    | PuttingUpstream(svc: Service)
    | Resetting(svc: Service)
    | PuttingRoute(svc: Service, i: nat)
    | Tracking(svc: Service, i: nat)
    | Untracking
    | DeletingRoutes(left: seq<string>)
    | DeletingUpstream

  /** `busy` holds the calls in progress, at most one for each service. */
  datatype System = System(s: State, busy: map<string, Activity>)

  datatype Action = Register(svc: Service) | Deregister(id: string) | Proceed(id: string, fate: Fate)

  function ActorOf(a: Action): string {
    if a.Register? then a.svc.id else a.id
  }

  predicate Enabled(sys: System, a: Action) {
    if a.Proceed? then a.id in sys.busy else ActorOf(a) !in sys.busy
  }

  /** One step of the call for service `id`: its effect, and where the call is then, if it goes on. */
  function Advanced(s: State, id: string, at: Activity, fate: Fate): (State, Option<Activity>) {
    var r := s.remote;
    match at
    case PuttingUpstream(svc) =>
      var r' := r.(upstreams := Put(r.upstreams, id, ToUpstreamBody(svc.upstream, svc.name), fate));
      (s.(remote := r'), if fate.Done? then Some(Resetting(svc)) else None)
    case Resetting(svc) =>
      (s.(tracked := s.tracked[id := []]), Some(PuttingRoute(svc, 0)))
    case PuttingRoute(svc, i) =>
      if i >= |svc.routes| then (s, None)
      else
        var r' := r.(routes := Put(r.routes, RouteID(id, i), BodyOf(svc, i), fate));
        (s.(remote := r'), Some(if fate.Done? then Tracking(svc, i) else PuttingRoute(svc, i + 1)))
    case Tracking(svc, i) =>
      var ids := if id in s.tracked then s.tracked[id] else [];
      (s.(tracked := s.tracked[id := ids + [RouteID(id, i)]]), Some(PuttingRoute(svc, i + 1)))
    case Untracking =>
      var ids := if id in s.tracked then s.tracked[id] else [];
      (s.(tracked := s.tracked - {id}), Some(DeletingRoutes(ids)))
    case DeletingRoutes(left) =>
      if left == [] then (s, Some(DeletingUpstream))
      else
        var r' := r.(routes := Deleted(r.routes, left[0], fate));
        (s.(remote := r'), if DeleteOk(r.routes, left[0], fate) then Some(DeletingRoutes(left[1..])) else None)
    case DeletingUpstream =>
      (s.(remote := r.(upstreams := Deleted(r.upstreams, id, fate))), None)
  }

  function Step(sys: System, a: Action): System
    requires Enabled(sys, a)
  {
    match a
    case Register(svc) => sys.(busy := sys.busy[svc.id := PuttingUpstream(svc)])
    case Deregister(id) => sys.(busy := sys.busy[id := Untracking])
    case Proceed(id, fate) =>
      var (s', at') := Advanced(sys.s, id, sys.busy[id], fate);
      System(s', if at'.Some? then sys.busy[id := at'.value] else sys.busy - {id})
  }

  predicate IsRun(sys: System, actions: seq<Action>)
    decreases |actions|
  {
    actions == [] || (Enabled(sys, actions[0]) && IsRun(Step(sys, actions[0]), actions[1..]))
  }

  function After(sys: System, actions: seq<Action>): System
    requires IsRun(sys, actions)
    decreases |actions|
  {
    if actions == [] then sys else After(Step(sys, actions[0]), actions[1..])
  }

  /** An arbitrary gateway, nothing tracked yet. */
  function Initial(remote: Remote): System {
    System(State(remote, map[]), map[])
  }

  // ---- Tracked routes are live and belong to their service ------------------------------------------

  ghost predicate Owned(id: string, ids: seq<string>) {
    forall k | 0 <= k < |ids| :: RouteOf(id, ids[k])
  }

  predicate Live(r: Remote, ids: seq<string>) {
    forall k | 0 <= k < |ids| :: ids[k] in r.routes
  }

  ghost predicate ActivityOk(r: Remote, id: string, at: Activity) {
    match at
    case PuttingUpstream(svc) => svc.id == id
    case Resetting(svc) => svc.id == id
    case PuttingRoute(svc, _) => svc.id == id
    case Tracking(svc, i) => svc.id == id && RouteID(id, i) in r.routes
    case DeletingRoutes(left) => Owned(id, left)
    case _ => true
  }

  ghost predicate Inv(sys: System) {
    && (forall id | id in sys.s.tracked :: Owned(id, sys.s.tracked[id]) && Live(sys.s.remote, sys.s.tracked[id]))
    && (forall id | id in sys.busy :: ActivityOk(sys.s.remote, id, sys.busy[id]))
    && (forall id | id in sys.busy && sys.busy[id].DeletingRoutes? :: id !in sys.s.tracked)
  }

  /** A step for one service leaves every other service's routes, upstream and tracking alone. */
  ghost predicate Untouched(s: State, s': State, id: string) {
    && (forall key | RouteOf(id, key) ::
          (key in s'.remote.routes <==> key in s.remote.routes)
          && (key in s.remote.routes ==> s'.remote.routes[key] == s.remote.routes[key]))
    && (id in s'.remote.upstreams <==> id in s.remote.upstreams)
    && (id in s.remote.upstreams ==> s'.remote.upstreams[id] == s.remote.upstreams[id])
    && (id in s'.tracked <==> id in s.tracked)
    && (id in s.tracked ==> s'.tracked[id] == s.tracked[id])
  }

  lemma StepLeavesOthersAlone(sys: System, a: Action, other: string)
    requires Inv(sys) && Enabled(sys, a) && ActorOf(a) != other
    ensures Untouched(sys.s, Step(sys, a).s, other)
    ensures other in Step(sys, a).busy <==> other in sys.busy
    ensures other in sys.busy ==> Step(sys, a).busy[other] == sys.busy[other]
  {
    if a.Proceed? {
      var at := sys.busy[a.id];
      assert ActivityOk(sys.s.remote, a.id, at);
      forall key | RouteOf(other, key) && RouteOf(a.id, key) ensures false {
        var i: nat, j: nat :| key == RouteID(other, i) && key == RouteID(a.id, j);
        RouteIDInjective(other, i, a.id, j);
      }
      if at.PuttingRoute? {
        assert RouteOf(a.id, RouteID(a.id, at.i));
      }
    }
  }

  lemma OthersStayOk(sys: System, a: Action, other: string)
    requires Inv(sys) && Enabled(sys, a) && ActorOf(a) != other
    ensures var sys' := Step(sys, a);
      && (other in sys'.s.tracked ==> Owned(other, sys'.s.tracked[other]) && Live(sys'.s.remote, sys'.s.tracked[other]))
      && (other in sys'.busy ==> ActivityOk(sys'.s.remote, other, sys'.busy[other]))
      && (other in sys'.busy && sys'.busy[other].DeletingRoutes? ==> other !in sys'.s.tracked)
  {
    StepLeavesOthersAlone(sys, a, other);
    if other in sys.busy && sys.busy[other].Tracking? {
      assert RouteOf(other, RouteID(other, sys.busy[other].i));
    }
  }

  lemma ActorStaysOk(sys: System, a: Action)
    requires Inv(sys) && Enabled(sys, a)
    ensures var sys', id := Step(sys, a), ActorOf(a);
      && (id in sys'.s.tracked ==> Owned(id, sys'.s.tracked[id]) && Live(sys'.s.remote, sys'.s.tracked[id]))
      && (id in sys'.busy ==> ActivityOk(sys'.s.remote, id, sys'.busy[id]))
      && (id in sys'.busy && sys'.busy[id].DeletingRoutes? ==> id !in sys'.s.tracked)
  {
    var id := ActorOf(a);
    if a.Proceed? {
      var at := sys.busy[id];
      assert ActivityOk(sys.s.remote, id, at);
      if at.Tracking? {
        assert RouteOf(id, RouteID(id, at.i));
      }
    }
  }

  lemma StepKeepsInv(sys: System, a: Action)
    requires Inv(sys) && Enabled(sys, a)
    ensures Inv(Step(sys, a))
  {
    var sys' := Step(sys, a);
    ActorStaysOk(sys, a);
    forall id | id in sys'.s.tracked
      ensures Owned(id, sys'.s.tracked[id]) && Live(sys'.s.remote, sys'.s.tracked[id])
    {
      if id != ActorOf(a) { OthersStayOk(sys, a, id); }
    }
    forall id | id in sys'.busy
      ensures ActivityOk(sys'.s.remote, id, sys'.busy[id])
      ensures sys'.busy[id].DeletingRoutes? ==> id !in sys'.s.tracked
    {
      if id != ActorOf(a) { OthersStayOk(sys, a, id); }
    }
  }

  lemma {:induction false} RunKeepsInv(sys: System, actions: seq<Action>)
    requires Inv(sys) && IsRun(sys, actions)
    ensures Inv(After(sys, actions))
    decreases |actions|
  {
    if actions != [] {
      StepKeepsInv(sys, actions[0]);
      RunKeepsInv(Step(sys, actions[0]), actions[1..]);
    }
  }

  /** In every reachable state, with any failures, every tracked id is a live route, belongs to the
      service it is tracked for, and to no other. */
  lemma TrackedRoutesAreLive(remote: Remote, actions: seq<Action>, id: string, k: nat, other: string)
    requires IsRun(Initial(remote), actions)
    requires var s := After(Initial(remote), actions).s; id in s.tracked && k < |s.tracked[id]|
    ensures var s := After(Initial(remote), actions).s;
      var key := s.tracked[id][k];
      key in s.remote.routes && RouteOf(id, key) && (RouteOf(other, key) ==> other == id)
  {
    RunKeepsInv(Initial(remote), actions);
    var s := After(Initial(remote), actions).s;
    var key := s.tracked[id][k];
    assert Owned(id, s.tracked[id]) && Live(s.remote, s.tracked[id]);
    if RouteOf(other, key) {
      var i: nat, j: nat :| key == RouteID(id, i) && key == RouteID(other, j);
      RouteIDInjective(id, i, other, j);
    }
  }

  /** Calls for other services, however they interleave and fail, never touch a service's routes,
      its upstream or its tracking. */
  lemma {:induction false} ServicesAreIsolated(sys: System, actions: seq<Action>, id: string)
    requires Inv(sys) && IsRun(sys, actions)
    requires forall k | 0 <= k < |actions| :: ActorOf(actions[k]) != id
    ensures Untouched(sys.s, After(sys, actions).s, id)
    decreases |actions|
  {
    if actions != [] {
      StepLeavesOthersAlone(sys, actions[0], id);
      StepKeepsInv(sys, actions[0]);
      assert forall k | 0 <= k < |actions[1..]| :: actions[1..][k] == actions[k + 1];
      ServicesAreIsolated(Step(sys, actions[0]), actions[1..], id);
    }
  }

  /** The steps of a registration from the reset of the tracking to the tracking of its first route. */
  function FirstRouteTracked(s: State, svc: Service): State {
    var s1 := Advanced(s, svc.id, Resetting(svc), Done).0;
    var s2 := Advanced(s1, svc.id, PuttingRoute(svc, 0), Done).0;
    Advanced(s2, svc.id, Tracking(svc, 0), Done).0
  }

  lemma FirstRouteIsTracked(s: State, svc: Service)
    requires |svc.routes| > 0
    ensures var key := RouteID(svc.id, 0);
      FirstRouteTracked(s, svc)
        == State(s.remote.(routes := s.remote.routes[key := BodyOf(svc, 0)]), s.tracked[svc.id := [key]])
  {
    var s1 := Advanced(s, svc.id, Resetting(svc), Done).0;
    assert s1 == State(s.remote, s.tracked[svc.id := []]);
    assert [] + [RouteID(svc.id, 0)] == [RouteID(svc.id, 0)];
    assert s.tracked[svc.id := []][svc.id := [RouteID(svc.id, 0)]] == s.tracked[svc.id := [RouteID(svc.id, 0)]];
  }

  /** Two calls for one service at once: a deregistration has read the tracked ids, a registration then
      writes and tracks the first route again, and the deregistration deletes it. */
  function Overlapped(s: State, svc: Service): State {
    var (s1, deleting) := Advanced(s, svc.id, Untracking, Done);
    var s2 := FirstRouteTracked(s1, svc);
    if deleting.Some? then Advanced(s2, svc.id, deleting.value, Done).0 else s2
  }

  /** So tracked routes are live only as long as the calls for one service do not overlap. */
  lemma OverlapBreaksTracking(s: State, svc: Service)
    requires |svc.routes| > 0 && svc.id in s.tracked
    requires |s.tracked[svc.id]| > 0 && s.tracked[svc.id][0] == RouteID(svc.id, 0)
    ensures var s', key := Overlapped(s, svc), RouteID(svc.id, 0);
      svc.id in s'.tracked && s'.tracked[svc.id] == [key] && key !in s'.remote.routes
  {
    FirstRouteIsTracked(Advanced(s, svc.id, Untracking, Done).0, svc);
  }

  // ---- Whole calls, one at a time -----------------------------------------------------------------------

  datatype Reply =
    | Success
    | CreateUpstreamFailed
    | CreateRoutesFailed(ids: seq<string>)
    | DeleteRouteFailed(id: string)
    | DeleteUpstreamFailed

  /** What becomes of the k-th request of a call. */
  type Fates = nat -> Fate

  function AllDone(): Fates {
    _ => Done
  }

  /** The routes on the gateway after the requests for the first `n` routes of the service. */
  function RoutesAfter(routes: map<string, RouteBody>, svc: Service, n: nat, fates: Fates): map<string, RouteBody>
    requires n <= |svc.routes|
  {
    if n == 0 then routes
    else Put(RoutesAfter(routes, svc, n - 1, fates), RouteID(svc.id, n - 1), BodyOf(svc, n - 1), fates(n))
  }

  /** Those of the first `n` route ids that were reported as written. */
  function ReportedRoutes(svc: Service, n: nat, fates: Fates): seq<string>
    requires n <= |svc.routes|
  {
    if n == 0 then []
    else
      var before := ReportedRoutes(svc, n - 1, fates);
      if fates(n).Done? then before + [RouteID(svc.id, n - 1)] else before
  }

  /** Writes the first `n` routes and tracks those that are reported as written. */
  function PutRoutes(s: State, svc: Service, n: nat, fates: Fates): State
    requires n <= |svc.routes|
  {
    State(s.remote.(routes := RoutesAfter(s.remote.routes, svc, n, fates)),
          s.tracked[svc.id := ReportedRoutes(svc, n, fates)])
  }

  function FailedRoutes(svc: Service, n: nat, fates: Fates): seq<string>
    requires n <= |svc.routes|
  {
    if n == 0 then []
    else
      var before := FailedRoutes(svc, n - 1, fates);
      if fates(n).Done? then before else before + [RouteID(svc.id, n - 1)]
  }

  function UpstreamPut(s: State, svc: Service, fate: Fate): State {
    s.(remote := s.remote.(upstreams :=
      Put(s.remote.upstreams, svc.id, ToUpstreamBody(svc.upstream, svc.name), fate)))
  }

  function Registered(s: State, svc: Service, fates: Fates): (State, Reply) {
    var s1 := UpstreamPut(s, svc, fates(0));
    if !fates(0).Done? then (s1, CreateUpstreamFailed)
    else
      var s2 := PutRoutes(s1, svc, |svc.routes|, fates);
      var failed := FailedRoutes(svc, |svc.routes|, fates);
      (s2, if failed == [] then Success else CreateRoutesFailed(failed))
  }

  /** Deletes ids[k..] in order; stops at the first request that reports an error. */
  function DeleteFrom(routes: map<string, RouteBody>, ids: seq<string>, k: nat, fates: Fates)
      : (map<string, RouteBody>, Option<string>)
    requires k <= |ids|
    decreases |ids| - k
  {
    if k == |ids| then (routes, None)
    else if DeleteOk(routes, ids[k], fates(k)) then DeleteFrom(Deleted(routes, ids[k], fates(k)), ids, k + 1, fates)
    else (Deleted(routes, ids[k], fates(k)), Some(ids[k]))
  }

  function Deregistered(s: State, id: string, fates: Fates): (State, Reply) {
    var ids := if id in s.tracked then s.tracked[id] else [];
    var (routes, bad) := DeleteFrom(s.remote.routes, ids, 0, fates);
    var s1 := State(s.remote.(routes := routes), s.tracked - {id});
    if bad.Some? then (s1, DeleteRouteFailed(bad.value))
    else
      var fate := fates(|ids|);
      (s1.(remote := s1.remote.(upstreams := Deleted(s.remote.upstreams, id, fate))),
       if DeleteOk(s.remote.upstreams, id, fate) then Success else DeleteUpstreamFailed)
  }

  // A whole call is what its steps add up to when no other call comes in between.

  lemma UpdateTwice<V>(m: map<string, V>, key: string, a: V, b: V)
    ensures m[key := a][key := b] == m[key := b]
  {
  }

  /** Puts one action in front of a run. */
  lemma RunCons(sys: System, a: Action, rest: seq<Action>)
    requires Enabled(sys, a) && IsRun(Step(sys, a), rest)
    ensures IsRun(sys, [a] + rest) && After(sys, [a] + rest) == After(Step(sys, a), rest)
  {
    assert ([a] + rest)[1..] == rest;
  }

  lemma {:induction false} RunConcat(sys: System, xs: seq<Action>, ys: seq<Action>)
    requires IsRun(sys, xs) && IsRun(After(sys, xs), ys)
    ensures IsRun(sys, xs + ys) && After(sys, xs + ys) == After(After(sys, xs), ys)
    decreases |xs|
  {
    if xs == [] {
      assert xs + ys == ys;
    } else {
      assert (xs + ys)[1..] == xs[1..] + ys;
      RunConcat(Step(sys, xs[0]), xs[1..], ys);
    }
  }

  /** The state in which the call is about to write route `i`. */
  function AtRoute(start: State, svc: Service, i: nat, busy: map<string, Activity>, fates: Fates): System
    requires i <= |svc.routes|
  {
    System(PutRoutes(start, svc, i, fates), busy[svc.id := PuttingRoute(svc, i)])
  }

  /** The state in which route `i` has been written and is about to be tracked. */
  function AtTracking(start: State, svc: Service, i: nat, busy: map<string, Activity>, fates: Fates): System
    requires i < |svc.routes|
  {
    System(State(start.remote.(routes := RoutesAfter(start.remote.routes, svc, i + 1, fates)),
                 start.tracked[svc.id := ReportedRoutes(svc, i, fates)]),
           busy[svc.id := Tracking(svc, i)])
  }

  lemma WriteStep(start: State, svc: Service, i: nat, busy: map<string, Activity>, fates: Fates)
    requires i < |svc.routes|
    ensures var next := Step(AtRoute(start, svc, i, busy, fates), Proceed(svc.id, fates(i + 1)));
      next == if fates(i + 1).Done? then AtTracking(start, svc, i, busy, fates)
              else AtRoute(start, svc, i + 1, busy, fates)
  {
    UpdateTwice(busy, svc.id, PuttingRoute(svc, i), Tracking(svc, i));
    UpdateTwice(busy, svc.id, PuttingRoute(svc, i), PuttingRoute(svc, i + 1));
  }

  lemma TrackStep(start: State, svc: Service, i: nat, busy: map<string, Activity>, fates: Fates)
    requires i < |svc.routes| && fates(i + 1).Done?
    ensures Step(AtTracking(start, svc, i, busy, fates), Proceed(svc.id, Done)) == AtRoute(start, svc, i + 1, busy, fates)
  {
    UpdateTwice(busy, svc.id, Tracking(svc, i), PuttingRoute(svc, i + 1));
    UpdateTwice(start.tracked, svc.id, ReportedRoutes(svc, i, fates), ReportedRoutes(svc, i + 1, fates));
  }

  lemma OneRouteIsARun(start: State, svc: Service, i: nat, busy: map<string, Activity>, fates: Fates)
      returns (actions: seq<Action>)
    requires i < |svc.routes|
    ensures IsRun(AtRoute(start, svc, i, busy, fates), actions)
    ensures After(AtRoute(start, svc, i, busy, fates), actions) == AtRoute(start, svc, i + 1, busy, fates)
  {
    var sys, a, b := AtRoute(start, svc, i, busy, fates), Proceed(svc.id, fates(i + 1)), Proceed(svc.id, Done);
    WriteStep(start, svc, i, busy, fates);
    actions := [];
    if fates(i + 1).Done? {
      TrackStep(start, svc, i, busy, fates);
      RunCons(Step(sys, a), b, []);
      actions := [b];
    }
    RunCons(sys, a, actions);
    actions := [a] + actions;
  }

  lemma {:induction false} RoutesAreARun(start: State, svc: Service, i: nat, busy: map<string, Activity>, fates: Fates)
      returns (actions: seq<Action>)
    requires i <= |svc.routes| && svc.id !in busy
    ensures var sys := AtRoute(start, svc, i, busy, fates);
      IsRun(sys, actions) && After(sys, actions) == System(PutRoutes(start, svc, |svc.routes|, fates), busy)
    decreases |svc.routes| - i
  {
    var sys := AtRoute(start, svc, i, busy, fates);
    if i == |svc.routes| {
      assert busy[svc.id := PuttingRoute(svc, i)] - {svc.id} == busy;
      actions := [Proceed(svc.id, Done)];
      RunCons(sys, Proceed(svc.id, Done), []);
    } else {
      var first := OneRouteIsARun(start, svc, i, busy, fates);
      var rest := RoutesAreARun(start, svc, i + 1, busy, fates);
      RunConcat(sys, first, rest);
      actions := first + rest;
    }
  }

  /** Registering is a run of the steps of one call. */
  lemma RegisterIsARun(s: State, busy: map<string, Activity>, svc: Service, fates: Fates) returns (actions: seq<Action>)
    requires svc.id !in busy
    ensures IsRun(System(s, busy), actions)
    ensures After(System(s, busy), actions) == System(Registered(s, svc, fates).0, busy)
  {
    var id, sys := svc.id, System(s, busy);
    var s1 := UpstreamPut(s, svc, fates(0));
    var sys1 := System(s, busy[id := PuttingUpstream(svc)]);
    assert Step(sys, Register(svc)) == sys1;
    if !fates(0).Done? {
      assert busy[id := PuttingUpstream(svc)] - {id} == busy;
      actions := [Proceed(id, fates(0))];
      RunCons(sys1, Proceed(id, fates(0)), []);
    } else {
      var routes := RoutesAreARun(s1, svc, 0, busy, fates);
      UpdateTwice(busy, id, PuttingUpstream(svc), Resetting(svc));
      UpdateTwice(busy, id, Resetting(svc), PuttingRoute(svc, 0));
      var sys2 := System(s1, busy[id := Resetting(svc)]);
      assert Step(sys1, Proceed(id, fates(0))) == sys2;
      RunCons(sys2, Proceed(id, Done), routes);
      RunCons(sys1, Proceed(id, fates(0)), [Proceed(id, Done)] + routes);
      actions := [Proceed(id, fates(0))] + ([Proceed(id, Done)] + routes);
    }
    RunCons(sys, Register(svc), actions);
    actions := [Register(svc)] + actions;
  }

  lemma {:induction false} DeletesAreARun(s: State, id: string, ids: seq<string>, k: nat, busy: map<string, Activity>,
                                          fates: Fates) returns (actions: seq<Action>)
    requires k <= |ids| && id !in busy
    ensures var sys := System(s, busy[id := DeletingRoutes(ids[k..])]);
      var (routes, bad) := DeleteFrom(s.remote.routes, ids, k, fates);
      var upstreams := if bad.Some? then s.remote.upstreams else Deleted(s.remote.upstreams, id, fates(|ids|));
      IsRun(sys, actions) && After(sys, actions) == System(s.(remote := Remote(upstreams, routes)), busy)
    decreases |ids| - k
  {
    var left := ids[k..];
    var sys := System(s, busy[id := DeletingRoutes(left)]);
    if k == |ids| {
      assert left == [];
      var a, b := Proceed(id, Done), Proceed(id, fates(|ids|));
      UpdateTwice(busy, id, DeletingRoutes(left), DeletingUpstream);
      assert busy[id := DeletingUpstream] - {id} == busy;
      RunCons(Step(sys, a), b, []);
      RunCons(sys, a, [b]);
      actions := [a] + [b];
    } else {
      var a := Proceed(id, fates(k));
      var s' := s.(remote := s.remote.(routes := Deleted(s.remote.routes, ids[k], fates(k))));
      assert left[0] == ids[k] && left[1..] == ids[k + 1..];
      if DeleteOk(s.remote.routes, ids[k], fates(k)) {
        var rest := DeletesAreARun(s', id, ids, k + 1, busy, fates);
        UpdateTwice(busy, id, DeletingRoutes(left), DeletingRoutes(ids[k + 1..]));
        assert Step(sys, a) == System(s', busy[id := DeletingRoutes(ids[k + 1..])]);
        RunCons(sys, a, rest);
        actions := [a] + rest;
      } else {
        assert busy[id := DeletingRoutes(left)] - {id} == busy;
        RunCons(sys, a, []);
        actions := [a];
      }
    }
  }

  /** Deregistering is a run of the steps of one call. */
  lemma DeregisterIsARun(s: State, busy: map<string, Activity>, id: string, fates: Fates) returns (actions: seq<Action>)
    requires id !in busy
    ensures IsRun(System(s, busy), actions)
    ensures After(System(s, busy), actions) == System(Deregistered(s, id, fates).0, busy)
  {
    var ids := if id in s.tracked then s.tracked[id] else [];
    var sys, s1 := System(s, busy), s.(tracked := s.tracked - {id});
    var deletes := DeletesAreARun(s1, id, ids, 0, busy, fates);
    assert ids[0..] == ids;
    UpdateTwice(busy, id, Untracking, DeletingRoutes(ids));
    var sys1 := Step(sys, Deregister(id));
    assert Step(sys1, Proceed(id, Done)) == System(s1, busy[id := DeletingRoutes(ids)]);
    RunCons(sys1, Proceed(id, Done), deletes);
    RunCons(sys, Deregister(id), [Proceed(id, Done)] + deletes);
    actions := [Deregister(id)] + ([Proceed(id, Done)] + deletes);
  }

  function RouteIDs(id: string, n: nat): seq<string> {
    seq(n, i requires 0 <= i < n => RouteID(id, i))
  }

  /** `key` is one of the first `n` route ids of the service. */
  ghost predicate Among(id: string, n: nat, key: string) {
    exists i: nat :: i < n && key == RouteID(id, i)
  }

  /** The routes once the first `n` of the service have been written without failures. */
  function PutAll(routes: map<string, RouteBody>, svc: Service, n: nat): map<string, RouteBody>
    requires n <= |svc.routes|
  {
    RoutesAfter(routes, svc, n, AllDone())
  }

  lemma PutAllHit(routes: map<string, RouteBody>, svc: Service, n: nat, i: nat)
    requires i < n <= |svc.routes|
    ensures var after := PutAll(routes, svc, n);
      RouteID(svc.id, i) in after && after[RouteID(svc.id, i)] == BodyOf(svc, i)
  {
    RoutesAfterHit(routes, svc, n, AllDone(), i);
  }

  lemma PutAllMiss(routes: map<string, RouteBody>, svc: Service, n: nat, key: string)
    requires n <= |svc.routes| && !Among(svc.id, n, key)
    ensures var after := PutAll(routes, svc, n);
      (key in after <==> key in routes) && (key in routes ==> after[key] == routes[key])
  {
    RoutesAfterAt(routes, svc, n, AllDone(), key);
  }

  /** Writing the same routes a second time changes nothing. */
  lemma PutAllTwice(routes: map<string, RouteBody>, svc: Service)
    ensures var once := PutAll(routes, svc, |svc.routes|);
      PutAll(once, svc, |svc.routes|) == once
  {
    var n := |svc.routes|;
    var once := PutAll(routes, svc, n);
    var twice := PutAll(once, svc, n);
    forall key
      ensures (key in twice <==> key in once) && (key in once && key in twice ==> twice[key] == once[key])
    {
      if Among(svc.id, n, key) {
        var i: nat :| i < n && key == RouteID(svc.id, i);
        PutAllHit(routes, svc, n, i);
        PutAllHit(once, svc, n, i);
      } else {
        PutAllMiss(once, svc, n, key);
      }
    }
  }

  lemma {:induction false} EverythingIsReported(svc: Service, n: nat)
    requires n <= |svc.routes|
    ensures ReportedRoutes(svc, n, AllDone()) == RouteIDs(svc.id, n)
  {
    if n > 0 {
      EverythingIsReported(svc, n - 1);
      assert RouteIDs(svc.id, n) == RouteIDs(svc.id, n - 1) + [RouteID(svc.id, n - 1)];
    }
  }

  lemma {:induction false} NothingFails(svc: Service, n: nat)
    requires n <= |svc.routes|
    ensures FailedRoutes(svc, n, AllDone()) == []
  {
    if n > 0 {
      NothingFails(svc, n - 1);
    }
  }

  /** What a failure-free registration leaves. */
  function AfterRegister(s: State, svc: Service): State {
    State(Remote(s.remote.upstreams[svc.id := ToUpstreamBody(svc.upstream, svc.name)],
                 PutAll(s.remote.routes, svc, |svc.routes|)),
          s.tracked[svc.id := RouteIDs(svc.id, |svc.routes|)])
  }

  lemma RegisterWrites(s: State, svc: Service)
    ensures Registered(s, svc, AllDone()) == (AfterRegister(s, svc), Success)
  {
    NothingFails(svc, |svc.routes|);
    EverythingIsReported(svc, |svc.routes|);
  }

  /** Registering the same description again, without failures, leaves gateway and tracking as they are. */
  lemma RegisterIsIdempotent(s: State, svc: Service)
    ensures var s1 := Registered(s, svc, AllDone()).0;
      Registered(s1, svc, AllDone()) == (s1, Success)
  {
    RegisterWrites(s, svc);
    var s1 := AfterRegister(s, svc);
    RegisterWrites(s1, svc);
    PutAllTwice(s.remote.routes, svc);
    var body, ids := ToUpstreamBody(svc.upstream, svc.name), RouteIDs(svc.id, |svc.routes|);
    UpdateTwice(s.remote.upstreams, svc.id, body, body);
    UpdateTwice(s.tracked, svc.id, ids, ids);
  }

  /** The routes without the service's ids k, ..., n-1. */
  function Without(routes: map<string, RouteBody>, id: string, k: nat, n: nat): map<string, RouteBody>
    decreases n - k
  {
    if k >= n then routes else Without(routes - {RouteID(id, k)}, id, k + 1, n)
  }

  lemma {:induction false} WithoutAt(routes: map<string, RouteBody>, id: string, k: nat, n: nat, key: string)
    ensures var after := Without(routes, id, k, n);
      && (key in after <==> key in routes && !exists i: nat :: k <= i < n && key == RouteID(id, i))
      && (key in after ==> after[key] == routes[key])
    decreases n - k
  {
    if k < n {
      WithoutAt(routes - {RouteID(id, k)}, id, k + 1, n, key);
      if key == RouteID(id, k) {
        assert k <= k < n && key == RouteID(id, k);
      }
    }
  }

  lemma {:induction false} DeleteFromRemoves(routes: map<string, RouteBody>, id: string, k: nat, n: nat)
    requires k <= n && forall i: nat | k <= i < n :: RouteID(id, i) in routes
    ensures DeleteFrom(routes, RouteIDs(id, n), k, AllDone()) == (Without(routes, id, k, n), None)
    decreases n - k
  {
    if k < n {
      var rest := routes - {RouteID(id, k)};
      forall i: nat | k + 1 <= i < n ensures RouteID(id, i) in rest {
        RouteIDsDiffer(id, i, k);
      }
      DeleteFromRemoves(rest, id, k + 1, n);
      assert RouteIDs(id, n)[k] == RouteID(id, k);
    }
  }

  /** No trace of the service on the gateway or in the tracking. */
  ghost predicate Absent(s: State, id: string) {
    && id !in s.remote.upstreams && id !in s.tracked
    && forall i: nat :: RouteID(id, i) !in s.remote.routes
  }

  /** What a failure-free deregistration leaves. */
  lemma DeregisterRemoves(s: State, id: string, n: nat)
    requires id in s.tracked && s.tracked[id] == RouteIDs(id, n) && id in s.remote.upstreams
    requires forall i: nat | i < n :: RouteID(id, i) in s.remote.routes
    ensures Deregistered(s, id, AllDone())
      == (State(Remote(s.remote.upstreams - {id}, Without(s.remote.routes, id, 0, n)), s.tracked - {id}), Success)
  {
    DeleteFromRemoves(s.remote.routes, id, 0, n);
  }

  /** Which of the original routes and of the written ones survive two registrations and a clean-up. */
  lemma Survivors(routes: map<string, RouteBody>, first: Service, second: Service, key: string)
    requires first.id == second.id
    ensures var m, n := |first.routes|, |second.routes|;
      var after := Without(PutAll(PutAll(routes, first, m), second, n), first.id, 0, n);
      && (key in after <==> !Among(first.id, n, key) && (key in routes || Among(first.id, m, key)))
      && (key in after && !Among(first.id, m, key) ==> after[key] == routes[key])
  {
    var m, n := |first.routes|, |second.routes|;
    var once := PutAll(routes, first, m);
    var twice := PutAll(once, second, n);
    WithoutAt(twice, first.id, 0, n, key);
    if !Among(first.id, n, key) {
      PutAllMiss(once, second, n, key);
      if Among(first.id, m, key) {
        var i: nat :| i < m && key == RouteID(first.id, i);
        PutAllHit(routes, first, m, i);
      } else {
        PutAllMiss(routes, first, m, key);
      }
    }
  }

  lemma RoutesRestoredIff(routes: map<string, RouteBody>, first: Service, second: Service)
    requires first.id == second.id && forall i: nat :: RouteID(first.id, i) !in routes
    ensures var m, n := |first.routes|, |second.routes|;
      Without(PutAll(PutAll(routes, first, m), second, n), first.id, 0, n) == routes <==> m <= n
  {
    var id, m, n := first.id, |first.routes|, |second.routes|;
    var after := Without(PutAll(PutAll(routes, first, m), second, n), id, 0, n);
    if m <= n {
      forall key
        ensures (key in after <==> key in routes) && (key in after && key in routes ==> after[key] == routes[key])
      {
        Survivors(routes, first, second, key);
        if Among(id, m, key) {
          var i: nat :| i < m && key == RouteID(id, i);
          assert i < n;
        }
      }
    } else {
      var key := RouteID(id, n);
      Survivors(routes, first, second, key);
      if Among(id, n, key) {
        var i: nat :| i < n && key == RouteID(id, i);
        RouteIDInjective(id, i, id, n);
      }
      assert Among(id, m, key);
    }
  }

  /** Registering a fresh service twice, with possibly different routes, and then deregistering it -
      all without failures - restores the gateway if and only if the second list of routes is at least
      as long as the first: shorter lists leave routes behind that are no longer tracked. */
  lemma RestoredIff(s: State, first: Service, second: Service)
    requires first.id == second.id && Absent(s, first.id)
    ensures var s1 := Registered(s, first, AllDone()).0;
      var s2 := Registered(s1, second, AllDone()).0;
      var (s3, reply) := Deregistered(s2, first.id, AllDone());
      && reply == Success
      && s3.tracked == s.tracked && s3.remote.upstreams == s.remote.upstreams
      && (s3 == s <==> |first.routes| <= |second.routes|)
  {
    RegisterWrites(s, first);
    RegisterWrites(AfterRegister(s, first), second);
    RestoredStates(s, first, second);
  }

  lemma RestoredStates(s: State, first: Service, second: Service)
    requires first.id == second.id && Absent(s, first.id)
    ensures var s2 := AfterRegister(AfterRegister(s, first), second);
      var (s3, reply) := Deregistered(s2, first.id, AllDone());
      && reply == Success
      && s3.tracked == s.tracked && s3.remote.upstreams == s.remote.upstreams
      && (s3 == s <==> |first.routes| <= |second.routes|)
  {
    var id, n := first.id, |second.routes|;
    var s1 := AfterRegister(s, first);
    var s2 := AfterRegister(s1, second);
    DeregisterAfterRegister(s1, second);
    assert s2.remote.upstreams - {id} == s.remote.upstreams by {
      UpdatesThenRemove(s.remote.upstreams, id, s1.remote.upstreams[id], s2.remote.upstreams[id]);
    }
    assert s2.tracked - {id} == s.tracked by {
      UpdatesThenRemove(s.tracked, id, s1.tracked[id], s2.tracked[id]);
    }
    RoutesRestoredIff(s.remote.routes, first, second);
  }

  lemma UpdatesThenRemove<V>(m: map<string, V>, key: string, a: V, b: V)
    requires key !in m
    ensures m[key := a][key := b] - {key} == m
  {
  }

  lemma DeregisterAfterRegister(s: State, svc: Service)
    ensures var s' := AfterRegister(s, svc);
      var routes := Without(s'.remote.routes, svc.id, 0, |svc.routes|);
      Deregistered(s', svc.id, AllDone())
        == (State(Remote(s'.remote.upstreams - {svc.id}, routes), s'.tracked - {svc.id}), Success)
  {
    var s', n := AfterRegister(s, svc), |svc.routes|;
    forall i: nat | i < n ensures RouteID(svc.id, i) in s'.remote.routes {
      PutAllHit(s.remote.routes, svc, n, i);
    }
    DeregisterRemoves(s', svc.id, n);
  }

  /** Registering a fresh service and deregistering it restores gateway and tracking. */
  lemma RegisterThenDeregister(s: State, svc: Service)
    requires Absent(s, svc.id)
    ensures Deregistered(Registered(s, svc, AllDone()).0, svc.id, AllDone()) == (s, Success)
  {
    RegisterIsIdempotent(s, svc);
    RestoredIff(s, svc, svc);
  }

  // ---- What is on the gateway ------------------------------------------------------------------------------

  /** The fields of an upstream as they were described; the scheme only if there is one. */
  predicate Describes(body: UpstreamBody, u: Upstream, name: string) {
    && body.kind == u.kind && body.nodes == u.nodes && body.name == name
    && (u.scheme == "" ==> body.scheme == None) && (u.scheme != "" ==> body.scheme == Some(u.scheme))
  }

  /** The fields of a route: enabled, its own upstream inline if it has one and the service's otherwise, and
      its methods only if there are any. */
  predicate DescribesRoute(body: RouteBody, route: Route, serviceID: string) {
    && body.name == route.name && body.status == 1 && body.uri == NormalizedURI(route.uri)
    && (route.methods == [] ==> body.methods == None)
    && (route.methods != [] ==> body.methods == Some(route.methods))
    && (match route.upstream
        case None => body.target == ById(serviceID)
        case Some(u) => body.target.Inline? && Describes(body.target.body, u, route.name))
  }

  lemma BodyDescribes(svc: Service, i: nat)
    requires i < |svc.routes|
    ensures DescribesRoute(BodyOf(svc, i), svc.routes[i], svc.id)
  {
  }

  lemma {:induction false} RoutesAfterHit(routes: map<string, RouteBody>, svc: Service, n: nat, fates: Fates, i: nat)
    requires i < n <= |svc.routes| && !fates(i + 1).NotDone?
    ensures var key, after := RouteID(svc.id, i), RoutesAfter(routes, svc, n, fates);
      key in after && after[key] == BodyOf(svc, i)
  {
    var before, last := RoutesAfter(routes, svc, n - 1, fates), RouteID(svc.id, n - 1);
    assert RoutesAfter(routes, svc, n, fates) == if fates(n).NotDone? then before else before[last := BodyOf(svc, n - 1)];
    if i < n - 1 {
      RoutesAfterHit(routes, svc, n - 1, fates, i);
      RouteIDsDiffer(svc.id, i, n - 1);
    }
  }

  /** After a registration that got past its upstream, with any failures, the service's upstream and every
      route whose request took effect are on the gateway as described, route i under `<id>-route-<i>`. */
  lemma RegisteredAsDescribed(s: State, svc: Service, fates: Fates, i: nat)
    requires fates(0).Done? && i < |svc.routes| && !fates(i + 1).NotDone?
    ensures var r, key := Registered(s, svc, fates).0.remote, svc.id + "-route-" + Digits(i);
      && svc.id in r.upstreams && Describes(r.upstreams[svc.id], svc.upstream, svc.name)
      && key in r.routes && DescribesRoute(r.routes[key], svc.routes[i], svc.id)
  {
    assert RouteID(svc.id, i) == svc.id + "-route-" + Digits(i);
    RoutesAfterHit(s.remote.routes, svc, |svc.routes|, fates, i);
    BodyDescribes(svc, i);
  }

  lemma {:induction false} FailedAre(svc: Service, n: nat, fates: Fates, key: string)
    requires n <= |svc.routes|
    ensures key in FailedRoutes(svc, n, fates) <==> Unreported(svc.id, n, fates, key)
  {
    if n > 0 {
      FailedAre(svc, n - 1, fates, key);
      if key == RouteID(svc.id, n - 1) && !fates(n).Done? {
        assert n - 1 < n && !fates(n - 1 + 1).Done?;
      }
    }
  }

  /** `key` is one of the first `n` route ids, and its request was not reported as done. */
  ghost predicate Unreported(id: string, n: nat, fates: Fates, key: string) {
    exists i: nat :: i < n && key == RouteID(id, i) && !fates(i + 1).Done?
  }

  /** What a registration answers: success exactly when every request was reported as done, and otherwise
      that the upstream failed, or exactly which routes did. */
  lemma RegisterReplyIff(s: State, svc: Service, fates: Fates)
    ensures var reply := Registered(s, svc, fates).1;
      && (reply.Success? <==> DoneFrom(fates, 0, |svc.routes| + 1))
      && (reply.CreateUpstreamFailed? <==> !fates(0).Done?)
      && (reply.Success? || reply.CreateUpstreamFailed? || reply.CreateRoutesFailed?)
      && (reply.CreateRoutesFailed? ==>
            forall key :: key in reply.ids <==> Unreported(svc.id, |svc.routes|, fates, key))
  {
    var n := |svc.routes|;
    var failed := FailedRoutes(svc, n, fates);
    forall key ensures key in failed <==> Unreported(svc.id, n, fates, key) {
      FailedAre(svc, n, fates, key);
    }
    NoneFailedIff(svc, n, fates);
    assert DoneFrom(fates, 0, n + 1) <==> fates(0).Done? && DoneFrom(fates, 1, n + 1);
  }

  lemma {:induction false} NoneFailedIff(svc: Service, n: nat, fates: Fates)
    requires n <= |svc.routes|
    ensures FailedRoutes(svc, n, fates) == [] <==> DoneFrom(fates, 1, n + 1)
  {
    if n > 0 {
      NoneFailedIff(svc, n - 1, fates);
      assert DoneFrom(fates, 1, n + 1) <==> DoneFrom(fates, 1, n) && fates(n).Done?;
    }
  }

  /** Deleting live routes stops at the first request that is not reported as done. */
  lemma {:induction false} FirstFailure(routes: map<string, RouteBody>, ids: seq<string>, k: nat, fates: Fates, j: nat)
    requires k <= j < |ids| && NoRepeats(ids) && forall i | k <= i < |ids| :: ids[i] in routes
    requires DoneFrom(fates, k, j) && !fates(j).Done?
    ensures DeleteFrom(routes, ids, k, fates).1 == Some(ids[j])
    decreases |ids| - k
  {
    if k < j {
      FirstFailure(routes - {ids[k]}, ids, k + 1, fates, j);
    }
  }

  /** What a deregistration of live routes answers: success exactly when the upstream exists and every
      request was reported as done, and otherwise the first route that failed, or the upstream. */
  lemma DeregisterReplyIff(s: State, id: string, fates: Fates)
    requires id in s.tracked ==> NoRepeats(s.tracked[id]) && forall k | 0 <= k < |s.tracked[id]| :: s.tracked[id][k] in s.remote.routes
    ensures var m, reply := if id in s.tracked then |s.tracked[id]| else 0, Deregistered(s, id, fates).1;
      && (reply.Success? <==> id in s.remote.upstreams && DoneFrom(fates, 0, m + 1))
      && (reply.DeleteRouteFailed? <==> !DoneFrom(fates, 0, m))
      && (reply.Success? || reply.DeleteRouteFailed? || reply.DeleteUpstreamFailed?)
      && (forall j | 0 <= j < m && DoneFrom(fates, 0, j) && !fates(j).Done? :: reply == DeleteRouteFailed(s.tracked[id][j]))
  {
    var ids := if id in s.tracked then s.tracked[id] else [];
    DeleteFromIff(s.remote.routes, ids, 0, fates);
    forall j | 0 <= j < |ids| && DoneFrom(fates, 0, j) && !fates(j).Done?
      ensures DeleteFrom(s.remote.routes, ids, 0, fates).1 == Some(ids[j])
    {
      FirstFailure(s.remote.routes, ids, 0, fates, j);
    }
    assert DoneFrom(fates, 0, |ids| + 1) <==> DoneFrom(fates, 0, |ids|) && fates(|ids|).Done?;
  }

  // ---- With failures ---------------------------------------------------------------------------------------

  /** `key` is one of the first `n` route ids, and its request took effect. */
  ghost predicate Written(id: string, n: nat, fates: Fates, key: string) {
    exists i: nat :: i < n && key == RouteID(id, i) && !fates(i + 1).NotDone?
  }

  /** `key` is one of the first `n` route ids, and its request was reported as done. */
  ghost predicate Reported(id: string, n: nat, fates: Fates, key: string) {
    exists i: nat :: i < n && key == RouteID(id, i) && fates(i + 1).Done?
  }

  lemma {:induction false} RoutesAfterAt(routes: map<string, RouteBody>, svc: Service, n: nat, fates: Fates, key: string)
    requires n <= |svc.routes|
    ensures var after := RoutesAfter(routes, svc, n, fates);
      && (key in after <==> key in routes || Written(svc.id, n, fates, key))
      && (!Written(svc.id, n, fates, key) && key in routes ==> after[key] == routes[key])
  {
    if n > 0 {
      RoutesAfterAt(routes, svc, n - 1, fates, key);
      assert Written(svc.id, n, fates, key) <==>
        Written(svc.id, n - 1, fates, key) || (key == RouteID(svc.id, n - 1) && !fates(n).NotDone?) by {
        if key == RouteID(svc.id, n - 1) && !fates(n).NotDone? {
          assert n - 1 < n && !fates(n - 1 + 1).NotDone?;
        }
      }
    }
  }

  ghost predicate NoRepeats(ids: seq<string>) {
    forall j, k | 0 <= j < k < |ids| :: ids[j] != ids[k]
  }

  lemma {:induction false} ReportedAre(svc: Service, n: nat, fates: Fates)
    requires n <= |svc.routes|
    ensures NoRepeats(ReportedRoutes(svc, n, fates))
    ensures forall key :: key in ReportedRoutes(svc, n, fates) <==> Reported(svc.id, n, fates, key)
  {
    if n > 0 {
      ReportedAre(svc, n - 1, fates);
      var last := RouteID(svc.id, n - 1);
      forall key ensures Reported(svc.id, n, fates, key) <==>
        Reported(svc.id, n - 1, fates, key) || (key == last && fates(n).Done?)
      {
        if key == last && fates(n).Done? {
          assert n - 1 < n && fates(n - 1 + 1).Done?;
        }
      }
      if Reported(svc.id, n - 1, fates, last) {
        var i: nat :| i < n - 1 && last == RouteID(svc.id, i) && fates(i + 1).Done?;
        RouteIDsDiffer(svc.id, i, n - 1);
      }
    }
  }

  predicate DoneFrom(fates: Fates, k: nat, n: nat) {
    forall j | k <= j < n :: fates(j).Done?
  }

  /** Deleting live routes in order gets to the end exactly when every request is reported as done. */
  lemma {:induction false} DeleteFromIff(routes: map<string, RouteBody>, ids: seq<string>, k: nat, fates: Fates)
    requires k <= |ids| && NoRepeats(ids) && forall j | k <= j < |ids| :: ids[j] in routes
    ensures DeleteFrom(routes, ids, k, fates).1.None? <==> DoneFrom(fates, k, |ids|)
    decreases |ids| - k
  {
    if k < |ids| && fates(k).Done? {
      DeleteFromIff(routes - {ids[k]}, ids, k + 1, fates);
    }
  }

  lemma {:induction false} DeleteFromAt(routes: map<string, RouteBody>, ids: seq<string>, k: nat, fates: Fates, key: string)
    requires k <= |ids| && NoRepeats(ids) && forall j | k <= j < |ids| :: ids[j] in routes
    requires DoneFrom(fates, k, |ids|)
    ensures var after := DeleteFrom(routes, ids, k, fates).0;
      && (key in after <==> key in routes && key !in ids[k..])
      && (key in after ==> after[key] == routes[key])
    decreases |ids| - k
  {
    if k < |ids| {
      assert ids[k..] == [ids[k]] + ids[k + 1..];
      DeleteFromAt(routes - {ids[k]}, ids, k + 1, fates, key);
    }
  }

  /** No request for one of the first `n` routes took effect without being reported. */
  predicate NoneUnreported(put: Fates, n: nat) {
    forall k | 1 <= k <= n :: !put(k).DoneUnreported?
  }

  /** Which failures a registration followed by a deregistration can take. */
  predicate Restores(svc: Service, put: Fates, del: Fates) {
    var n := |svc.routes|;
    var tracked := if put(0).Done? then |ReportedRoutes(svc, n, put)| else 0;
    || put(0).NotDone?
    || (!del(tracked).NotDone? && (put(0).Done? ==> NoneUnreported(put, n) && DoneFrom(del, 0, tracked)))
  }

  /** Registering a fresh service and deregistering it, each request with any fate, leaves gateway and
      tracking as they were exactly when either the upstream was never created; or every route written
      was reported, every tracked route's deletion was reported, and the upstream's took effect. */
  lemma RestoredUnderFatesIff(s: State, svc: Service, put: Fates, del: Fates)
    requires Absent(s, svc.id)
    ensures Deregistered(Registered(s, svc, put).0, svc.id, del).0 == s <==> Restores(svc, put, del)
  {
    if put(0).Done? {
      var n := |svc.routes|;
      var ids, routes := ReportedRoutes(svc, n, put), RoutesAfter(s.remote.routes, svc, n, put);
      DeregisteredAfter(s, svc, put, del);
      TrackedAreWritten(s.remote.routes, svc, put);
      DeleteFromIff(routes, ids, 0, del);
      if DoneFrom(del, 0, |ids|) {
        LeftoversIff(s, svc, put, del);
      }
    }
  }

  /** What deregistering makes of a registration that got past its upstream. */
  lemma DeregisteredAfter(s: State, svc: Service, put: Fates, del: Fates)
    requires Absent(s, svc.id) && put(0).Done?
    ensures var n := |svc.routes|;
      var ids, routes := ReportedRoutes(svc, n, put), RoutesAfter(s.remote.routes, svc, n, put);
      var (after, bad) := DeleteFrom(routes, ids, 0, del);
      var s' := Deregistered(Registered(s, svc, put).0, svc.id, del).0;
      && s'.tracked == s.tracked && s'.remote.routes == after
      && (s'.remote.upstreams == s.remote.upstreams <==> bad.None? && !del(|ids|).NotDone?)
  {
    var id, n := svc.id, |svc.routes|;
    var s1, ids := Registered(s, svc, put).0, ReportedRoutes(svc, n, put);
    var body := ToUpstreamBody(svc.upstream, svc.name);
    assert s1 == State(Remote(s.remote.upstreams[id := body], RoutesAfter(s.remote.routes, svc, n, put)), s.tracked[id := ids]);
    assert s1.tracked - {id} == s.tracked && s1.remote.upstreams - {id} == s.remote.upstreams;
    assert s1.tracked[id] == ids;
    var (after, bad) := DeleteFrom(s1.remote.routes, ids, 0, del);
  }

  lemma TrackedAreWritten(routes: map<string, RouteBody>, svc: Service, put: Fates)
    ensures var ids := ReportedRoutes(svc, |svc.routes|, put);
      NoRepeats(ids) && forall j | 0 <= j < |ids| :: ids[j] in RoutesAfter(routes, svc, |svc.routes|, put)
  {
    var n := |svc.routes|;
    var ids := ReportedRoutes(svc, n, put);
    ReportedAre(svc, n, put);
    forall j | 0 <= j < |ids| ensures ids[j] in RoutesAfter(routes, svc, n, put) {
      assert ids[j] in ids;
      var i: nat :| i < n && ids[j] == RouteID(svc.id, i) && put(i + 1).Done?;
      assert Written(svc.id, n, put, ids[j]);
      RoutesAfterAt(routes, svc, n, put, ids[j]);
    }
  }

  /** What is left of one key once the tracked routes are gone. */
  lemma LeftoverAt(s: State, svc: Service, put: Fates, del: Fates, key: string)
    requires Absent(s, svc.id) && DoneFrom(del, 0, |ReportedRoutes(svc, |svc.routes|, put)|)
    ensures var n := |svc.routes|;
      var after := DeleteFrom(RoutesAfter(s.remote.routes, svc, n, put), ReportedRoutes(svc, n, put), 0, del).0;
      && (key in after <==>
            key in s.remote.routes || (Written(svc.id, n, put, key) && !Reported(svc.id, n, put, key)))
      && (key in after && key in s.remote.routes ==> after[key] == s.remote.routes[key])
  {
    var n := |svc.routes|;
    var ids, routes := ReportedRoutes(svc, n, put), RoutesAfter(s.remote.routes, svc, n, put);
    ReportedAre(svc, n, put);
    TrackedAreWritten(s.remote.routes, svc, put);
    DeleteFromAt(routes, ids, 0, del, key);
    assert ids[0..] == ids;
    RoutesAfterAt(s.remote.routes, svc, n, put, key);
    assert key in ids <==> Reported(svc.id, n, put, key);
  }

  /** Taking out the tracked routes restores the rest exactly when nothing was written unreported. */
  lemma LeftoversIff(s: State, svc: Service, put: Fates, del: Fates)
    requires Absent(s, svc.id) && DoneFrom(del, 0, |ReportedRoutes(svc, |svc.routes|, put)|)
    ensures var n := |svc.routes|;
      DeleteFrom(RoutesAfter(s.remote.routes, svc, n, put), ReportedRoutes(svc, n, put), 0, del).0 == s.remote.routes
      <==> NoneUnreported(put, n)
  {
    var id, n := svc.id, |svc.routes|;
    var after := DeleteFrom(RoutesAfter(s.remote.routes, svc, n, put), ReportedRoutes(svc, n, put), 0, del).0;
    if NoneUnreported(put, n) {
      forall key
        ensures (key in after <==> key in s.remote.routes)
        ensures key in after && key in s.remote.routes ==> after[key] == s.remote.routes[key]
      {
        LeftoverAt(s, svc, put, del, key);
        if Written(id, n, put, key) {
          var i: nat :| i < n && key == RouteID(id, i) && !put(i + 1).NotDone?;
          assert put(i + 1).Done?;
        }
      }
    } else {
      var k :| 1 <= k <= n && put(k).DoneUnreported?;
      UnreportedStays(svc, put, k);
      LeftoverAt(s, svc, put, del, RouteID(id, k - 1));
    }
  }

  lemma UnreportedStays(svc: Service, put: Fates, k: nat)
    requires 1 <= k <= |svc.routes| && put(k).DoneUnreported?
    ensures Written(svc.id, |svc.routes|, put, RouteID(svc.id, k - 1))
    ensures !Reported(svc.id, |svc.routes|, put, RouteID(svc.id, k - 1))
  {
    var n, key := |svc.routes|, RouteID(svc.id, k - 1);
    var i: nat := k - 1;
    assert i < n && key == RouteID(svc.id, i) && !put(i + 1).NotDone?;
    if Reported(svc.id, n, put, key) {
      var j: nat :| j < n && key == RouteID(svc.id, j) && put(j + 1).Done?;
      RouteIDInjective(svc.id, i, svc.id, j);
    }
  }

  // ---- The objects ---------------------------------------------------------------------------------------

  datatype Mode = Off | Single | Leader

  function ModeOf(registerMode: string): Mode {
    if registerMode == "off" then Off else if registerMode == "leader" then Leader else Single
  }

  class AdminServer {
    var upstreams: map<string, UpstreamBody>
    var routes: map<string, RouteBody>

    method PutUpstream(id: string, body: UpstreamBody, fate: Fate) returns (ok: bool)
      modifies this`upstreams
      ensures upstreams == Put(old(upstreams), id, body, fate) && ok == fate.Done?
    {
      if !fate.NotDone? {
        upstreams := upstreams[id := body];
      }
      ok := fate.Done?;
    }

    method PutRoute(id: string, body: RouteBody, fate: Fate) returns (ok: bool)
      modifies this`routes
      ensures routes == Put(old(routes), id, body, fate) && ok == fate.Done?
    {
      if !fate.NotDone? {
        routes := routes[id := body];
      }
      ok := fate.Done?;
    }

    method DeleteRoute(id: string, fate: Fate) returns (ok: bool)
      modifies this`routes
      ensures routes == Deleted(old(routes), id, fate) && ok == DeleteOk(old(routes), id, fate)
    {
      ok := id in routes && fate.Done?;
      if !fate.NotDone? {
        routes := routes - {id};
      }
    }

    method DeleteUpstream(id: string, fate: Fate) returns (ok: bool)
      modifies this`upstreams
      ensures upstreams == Deleted(old(upstreams), id, fate) && ok == DeleteOk(old(upstreams), id, fate)
    {
      ok := id in upstreams && fate.Done?;
      if !fate.NotDone? {
        upstreams := upstreams - {id};
      }
    }
  }

  class Gateway {
    const mode: Mode
    const deregisterOnShutdown: Option<bool>
    const admin: AdminServer
    var routeIDs: map<string, seq<string>>

    constructor (registerMode: string, deregisterOnShutdown: Option<bool>, admin: AdminServer)
      ensures mode == ModeOf(registerMode) && this.deregisterOnShutdown == deregisterOnShutdown
      ensures this.admin == admin && routeIDs == map[]
    {
      mode := ModeOf(registerMode);
      this.deregisterOnShutdown := deregisterOnShutdown;
      this.admin := admin;
      routeIDs := map[];
    }

    /** The gateway's two maps and the tracking. */
    function Model(): State
      reads this, admin
    {
      State(Remote(admin.upstreams, admin.routes), routeIDs)
    }

    function ShouldDeregister(): bool {
      if deregisterOnShutdown.Some? then deregisterOnShutdown.value else !mode.Leader?
    }

    /** The loop over the routes: a failed route is noted and skipped. */
    method WriteRoutes(svc: Service, fates: Fates) returns (failed: seq<string>)
      modifies this`routeIDs, admin`routes
      ensures Model() == PutRoutes(old(Model()), svc, |svc.routes|, fates)
      ensures failed == FailedRoutes(svc, |svc.routes|, fates)
    {
      ghost var start := Model();
      routeIDs := routeIDs[svc.id := []];
      failed := [];
      for i := 0 to |svc.routes|
        invariant admin.upstreams == start.remote.upstreams
        invariant admin.routes == RoutesAfter(start.remote.routes, svc, i, fates)
        invariant routeIDs == start.tracked[svc.id := ReportedRoutes(svc, i, fates)]
        invariant failed == FailedRoutes(svc, i, fates)
      {
        UpdateTwice(start.tracked, svc.id, ReportedRoutes(svc, i, fates), ReportedRoutes(svc, i + 1, fates));
        var routeID := RouteID(svc.id, i);
        var ok := admin.PutRoute(routeID, BodyOf(svc, i), fates(i + 1));
        if ok {
          routeIDs := routeIDs[svc.id := routeIDs[svc.id] + [routeID]];
        } else {
          failed := failed + [routeID];
        }
      }
    }

    method RegisterServiceDirect(svc: Service, fates: Fates) returns (reply: Reply)
      modifies this`routeIDs, admin
      ensures (Model(), reply) == Registered(old(Model()), svc, fates)
    {
      var ok := admin.PutUpstream(svc.id, ToUpstreamBody(svc.upstream, svc.name), fates(0));
      if !ok {
        return CreateUpstreamFailed;
      }
      var failed := WriteRoutes(svc, fates);
      if |failed| > 0 {
        return CreateRoutesFailed(failed);
      }
      return Success;
    }

    method DeregisterServiceDirect(id: string, fates: Fates) returns (reply: Reply)
      modifies this`routeIDs, admin
      ensures (Model(), reply) == Deregistered(old(Model()), id, fates)
    {
      var ids := if id in routeIDs then routeIDs[id] else [];
      routeIDs := routeIDs - {id};
      ghost var goal := DeleteFrom(admin.routes, ids, 0, fates);
      for k := 0 to |ids|
        invariant admin.upstreams == old(admin.upstreams) && routeIDs == old(routeIDs) - {id}
        invariant DeleteFrom(admin.routes, ids, k, fates) == goal
      {
        var ok := admin.DeleteRoute(ids[k], fates(k));
        if !ok {
          return DeleteRouteFailed(ids[k]);
        }
      }
      var deleted := admin.DeleteUpstream(id, fates(|ids|));
      return if deleted then Success else DeleteUpstreamFailed;
    }

    /** Off mode writes nothing; every other setting but leader registers directly. */
    method RegisterService(svc: Service, fates: Fates) returns (reply: Reply)
      requires !mode.Leader?
      modifies this`routeIDs, admin
      ensures mode.Off? ==> Model() == old(Model()) && reply == Success
      ensures mode.Single? ==> (Model(), reply) == Registered(old(Model()), svc, fates)
    {
      if mode.Off? {
        return Success;
      }
      reply := RegisterServiceDirect(svc, fates);
    }

    method DeregisterService(id: string, fates: Fates) returns (reply: Reply)
      requires !mode.Leader?
      modifies this`routeIDs, admin
      ensures mode.Off? || deregisterOnShutdown == Some(false) ==> Model() == old(Model()) && reply == Success
      ensures mode.Single? && deregisterOnShutdown != Some(false) ==>
        (Model(), reply) == Deregistered(old(Model()), id, fates)
    {
      if mode.Off? || !ShouldDeregister() {
        return Success;
      }
      reply := DeregisterServiceDirect(id, fates);
    }
  }

  /** A gateway is created only with an admin URL. */
  method NewApisixGateway(adminURL: string, registerMode: string, deregisterOnShutdown: Option<bool>, admin: AdminServer)
      returns (r: Result<Gateway>)
    ensures r.Err? <==> adminURL == ""
    ensures r.Ok? ==>
      && fresh(r.value) && r.value.admin == admin && r.value.routeIDs == map[]
      && (r.value.mode.Off? <==> registerMode == "off") && (r.value.mode.Leader? <==> registerMode == "leader")
      && r.value.deregisterOnShutdown == deregisterOnShutdown
  {
    if adminURL == "" {
      return Result.Err("apisix admin_url is required");
    }
    var gateway := new Gateway(registerMode, deregisterOnShutdown, admin);
    r := Result.Ok(gateway);
  }
}
