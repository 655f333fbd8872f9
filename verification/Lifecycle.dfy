/** Activate, Deactivate and ClearAll of pkg/scenarios/manager.go as atomic operations on the
    registry, the vCenter state and the map of active scenarios. */
module Lifecycle {
  import opened Wrappers
  import opened Overrides
  import opened Engine
  import opened Plans
  import opened ActiveKeys

  datatype Request = Request(id: string, targets: seq<string>, params: Params, duration: int)

  datatype ActiveScenario = ActiveScenario(id: string, targets: seq<string>, params: Params, startedAt: int)

  type ActiveMap = map<string, ActiveScenario>

  datatype Book = Book(state: State, active: ActiveMap)

  /** Crashed: the handler panics, the deferred unlock releases the manager and the HTTP server goes on. */
  datatype Result = Ok | UnknownScenario | ActivationFailed | Crashed | NotActive

  /** Nanoseconds in a second: times are in nanoseconds, durations in seconds. */
  const SECOND: int := 1_000_000_000

  /** The one expiry of all overrides of an activation that starts at `now`. */
  function ExpiryFor(req: Request, now: int): Expiry {
    if req.duration > 0 then At(now + req.duration * SECOND) else Never
  }

  function RequestPlan(env: Env, req: Request, now: int, n: nat): (p: Plan)
    ensures Uniform(p.events, ExpiryFor(req, now))
  {
    match Dispatch(req.id)
    case None => Plan([], Errored)
    case Some(sc) => ActivationPlan(env, sc, req.targets, req.params, ExpiryFor(req, now), n)
  }

  function Commit(active: ActiveMap, req: Request, end: int): ActiveMap {
    active[Key(req.id, req.targets) := ActiveScenario(req.id, req.targets, req.params, end)]
  }

  /** Activate, begun at `now` and finished at `end`. */
  function Activated(env: Env, b: Book, req: Request, now: int, end: int): (Book, Result) {
    if req.id !in REGISTERED then (b, UnknownScenario)
    else
      var p := RequestPlan(env, req, now, b.state.calls);
      var s := Run(b.state, p.events);
      match p.end
      case Completed => (Book(s, Commit(b.active, req, end)), Ok)
      case Errored => (Book(s, b.active), ActivationFailed)
      case Panicked => (Book(s, b.active), Crashed)
  }

  function Deactivated(env: Env, b: Book, req: Request): (Book, Result) {
    var key := Key(req.id, req.targets);
    if key !in b.active then (b, NotActive)
    else
      (Book(Run(b.state, DeactivationEvents(env, Dispatch(req.id), req.targets, b.state.calls)), b.active - {key}), Ok)
  }

  function AllCleared(b: Book): Book {
    Book(Step(b.state, ClearAll), map[])
  }

  // ---------- What every operation keeps ----------

  /** Lists are duplicate-free; every active entry stands under the key of its own id and targets,
      and its id is a registered one, so it has an activation branch. */
  ghost predicate Consistent(b: Book) {
    && Sound(b.state)
    && forall k :: k in b.active ==>
         && k == Key(b.active[k].id, b.active[k].targets)
         && b.active[k].id in REGISTERED && Dispatch(b.active[k].id).Some?
  }

  /** A failed Activate leaves the active map alone; a successful one adds or replaces one entry, which
      records the request and the time it finished. */
  lemma ActivatedKeeps(env: Env, b: Book, req: Request, now: int, end: int)
    requires Consistent(b)
    ensures var (b', r) := Activated(env, b, req, now, end);
            && Consistent(b')
            && (r != Ok ==> b'.active == b.active)
            && (r == Ok ==>
                  var entry := ActiveScenario(req.id, req.targets, req.params, end);
                  b'.active == b.active[Key(req.id, req.targets) := entry])
            && (r == UnknownScenario <==> Dispatch(req.id).None?)
            && (r == UnknownScenario ==> b' == b)
  {
    hide Sound, Run, RequestPlan, Key, Dispatch, Uniform;
    RegisteredDispatch(req.id);
    RunSound(b.state, RequestPlan(env, req, now, b.state.calls).events);
  }

  /** Deactivate succeeds exactly on active keys, and removes only that key. */
  lemma DeactivatedKeeps(env: Env, b: Book, req: Request)
    requires Consistent(b)
    ensures var (b', r) := Deactivated(env, b, req);
            && Consistent(b')
            && (r == Ok <==> Key(req.id, req.targets) in b.active)
            && b'.active == b.active - {Key(req.id, req.targets)}
            && (r != Ok ==> b' == b)
  {
    RunSound(b.state, DeactivationEvents(env, Dispatch(req.id), req.targets, b.state.calls));
  }

  lemma AllClearedKeeps(b: Book)
    requires Consistent(b)
    ensures Consistent(AllCleared(b)) && AllCleared(b).active == map[]
    ensures forall slot :: Lookup(AllCleared(b).state, slot) == None
    ensures AllCleared(b).state.world == b.state.world
  {
  }

  // ---------- Which scenario a key stands for ----------

  lemma RegisteredColonFree(i: nat)
    requires i < |REGISTERED|
    ensures ':' !in REGISTERED[i]
  {
    if i < 10 {
      FirstTenColonFree(i);
    } else if i < 20 {
      SecondTenColonFree(i);
    } else {
      LastTenColonFree(i);
    }
  }

  lemma FirstTenColonFree(i: nat)
    requires i < 10
    ensures ':' !in REGISTERED[i]
  {
  }

  lemma SecondTenColonFree(i: nat)
    requires 10 <= i < 20
    ensures ':' !in REGISTERED[i]
  {
  }

  lemma LastTenColonFree(i: nat)
    requires 20 <= i < 30
    ensures ':' !in REGISTERED[i]
  {
  }

  /** The scenario that Deactivate removes carries the request's id exactly when that id has no colon;
      then it also has the same space-separated words, and when no target on either side has a space,
      the very same targets. */
  lemma DeactivateHitsItsScenario(b: Book, req: Request)
    requires Consistent(b) && Key(req.id, req.targets) in b.active
    ensures var a := b.active[Key(req.id, req.targets)];
            && (a.id == req.id <==> ':' !in req.id)
            && (a.id == req.id ==> Words(a.targets) == Words(req.targets))
            && (a.id == req.id && (forall t :: t in a.targets + req.targets ==> ' ' !in t) ==>
                  NonEmpty(a.targets) == NonEmpty(req.targets))
  {
    var a := b.active[Key(req.id, req.targets)];
    var i :| 0 <= i < |REGISTERED| && REGISTERED[i] == a.id;
    RegisteredColonFree(i);
    if ':' !in req.id {
      KeyCollision(a.id, a.targets, req.id, req.targets);
      if forall t :: t in a.targets + req.targets ==> ' ' !in t {
        assert forall t :: t in a.targets ==> t in a.targets + req.targets;
        KeyInjective(a.id, a.targets, req.id, req.targets);
      }
    }
  }

  /** The colon matters: from no active scenario, activate one on the target "a:[b]"; a Deactivate with
      another id and other targets has its key, is answered with Ok and removes it. */
  lemma ColonCollision(env: Env, b: Book, now: int, end: int)
    requires Consistent(b) && b.active == map[] && "a:[b]" in env.objects
    ensures var (b1, r1) := Activated(env, b, Request("cpu_rp_limit", ["a:[b]"], map[], 0), now, end);
            var (b2, r2) := Deactivated(env, b1, Request("cpu_rp_limit:[a", ["b]"], map[], 0));
            && r1 == Ok && Consistent(b1) && |b1.active| == 1 && "cpu_rp_limit:[a" !in REGISTERED
            && r2 == Ok && b2.active == map[]
  {
    hide Activated, Deactivated, Key, Dispatch;
    var req, other := Request("cpu_rp_limit", ["a:[b]"], map[], 0), Request("cpu_rp_limit:[a", ["b]"], map[], 0);
    var b1 := Activated(env, b, req, now, end).0;
    ColonKeys();
    LimitActivates(env, b, req, "a:[b]", now, end);
    ActivatedKeeps(env, b, req, now, end);
    DeactivatedKeeps(env, b1, other);
    OtherIdUnknown();
    assert b1.active - {Key(req.id, req.targets)} == map[];
  }

  lemma OtherIdUnknown()
    ensures "cpu_rp_limit:[a" !in REGISTERED
  {
    RegisteredDispatch("cpu_rp_limit:[a");
  }

  lemma LimitActivates(env: Env, b: Book, req: Request, target: string, now: int, end: int)
    requires req.id == "cpu_rp_limit" && req.targets == [target] && target in env.objects && b.active == map[]
    ensures var (b1, r) := Activated(env, b, req, now, end);
            r == Ok && b1.active == map[Key(req.id, [target]) := ActiveScenario(req.id, [target], req.params, end)]
  {
    hide RequestPlan, Key;
    LimitSucceeds(env, req, target, now, b.state.calls);
  }

  lemma ColonKeys()
    ensures Key("cpu_rp_limit:[a", ["b]"]) == Key("cpu_rp_limit", ["a:[b]"])
  {
    var l, r := Key("cpu_rp_limit:[a", ["b]"]), Key("cpu_rp_limit", ["a:[b]"]);
    assert l == "cpu_rp_limit:[a:[b]]" == r;
  }

  lemma LimitSucceeds(env: Env, req: Request, target: string, now: int, n: nat)
    requires req.id == "cpu_rp_limit" && req.targets == [target] && target in env.objects
    ensures req.id in REGISTERED && RequestPlan(env, req, now, n).end == Completed
  {
    hide TargetWrites, TargetPlan, Uniform, Calls;
    var x := ExpiryFor(req, now);
    assert REGISTERED[3] == req.id && Dispatch(req.id) == Some(CpuRpLimit);
    assert req.targets[1..] == [];
    LimitTarget(env, target, req.params, x, n);
    var p := TargetPlan(env, CpuRpLimit, target, req.params, x, n);
    assert ActivationPlan(env, CpuRpLimit, [], req.params, x, n + Calls(p.events)).Ok();
  }

  lemma LimitTarget(env: Env, target: string, params: Params, x: Expiry, n: nat)
    requires target in env.objects
    ensures TargetPlan(env, CpuRpLimit, target, params, x, n).Ok()
  {
    hide TargetWrites, Uniform;
  }
}
