/** The running system, one event at a time. A manager operation holds the manager lock from Begin
    to Finish, but takes the registry lock only for each single write; readers take it in between,
    and the clock moves on. Every run is shown to be explained by whole operations in lock order
    plus a prefix of the one in progress. */
module Interleaving {
  import opened Wrappers
  import opened Overrides
  import opened Engine
  import opened Plans
  import opened ActiveKeys
  import opened Lifecycle
  import opened Footprints

  datatype Work = Activating(req: Request, now: int) | Deactivating(req: Request) | Clearing

  /** The operation holding the manager lock: events done and events to come. */
  datatype Job = Job(work: Work, done: seq<Event>, todo: seq<Event>, end: Ending)

  /** `log` records every event, `ops` every finished operation, in order. */
  datatype Sys = Sys(book: Book, clock: int, job: Option<Job>, log: seq<Event>, ops: seq<Operation>)

  datatype Action =
    | BeginActivate(req: Request)
    | BeginDeactivate(req: Request)
    | BeginClear
    | DoEvent
    | Finish
    | Tick(d: nat)

  function PlanOf(env: Env, b: Book, w: Work): Plan {
    match w
    case Activating(req, now) => RequestPlan(env, req, now, b.state.calls)
    case Deactivating(req) =>
      if Key(req.id, req.targets) in b.active then
        Plan(DeactivationEvents(env, Dispatch(req.id), req.targets, b.state.calls), Completed)
      else Plan([], Errored)
    case Clearing => Plan([ClearAll], Completed)
  }

  function Start(env: Env, s: Sys, w: Work): Sys {
    var p := PlanOf(env, s.book, w);
    s.(job := Some(Job(w, [], p.events, p.end)))
  }

  /** What Finish does to the active map, and the operation it completes. */
  function Closed(active: ActiveMap, j: Job, end: int): ActiveMap {
    match j.work
    case Activating(req, _) => if j.end == Completed then Commit(active, req, end) else active
    case Deactivating(req) => if j.end == Completed then active - {Key(req.id, req.targets)} else active
    case Clearing => map[]
  }

  function OpOf(w: Work, end: int): Operation {
    match w
    case Activating(req, now) => Activate(req, now, end)
    case Deactivating(req) => Deactivate(req)
    case Clearing => ClearEverything
  }

  /** One step; an action that is not possible (the lock is taken, or there is nothing left to do)
      waits, that is, changes nothing. */
  function Next(env: Env, s: Sys, a: Action): Sys {
    match a
    case BeginActivate(req) => if s.job.None? then Start(env, s, Activating(req, s.clock)) else s
    case BeginDeactivate(req) => if s.job.None? then Start(env, s, Deactivating(req)) else s
    case BeginClear => if s.job.None? then Start(env, s, Clearing) else s
    case DoEvent =>
      if s.job.Some? && s.job.value.todo != [] then
        var j := s.job.value;
        var e := j.todo[0];
        s.(book := s.book.(state := Step(s.book.state, e)),
           job := Some(j.(done := j.done + [e], todo := j.todo[1..])),
           log := s.log + [e])
      else s
    case Finish =>
      if s.job.Some? && s.job.value.todo == [] then
        var j := s.job.value;
        s.(book := s.book.(active := Closed(s.book.active, j, s.clock)),
           job := None,
           ops := s.ops + [OpOf(j.work, s.clock)])
      else s
    case Tick(d) => s.(clock := s.clock + d)
  }

  function Exec(env: Env, s: Sys, acts: seq<Action>): Sys
    decreases acts
  {
    if acts == [] then s else Exec(env, Next(env, s, acts[0]), acts[1..])
  }

  function Init(b: Book, clock: int): Sys {
    Sys(b, clock, None, [], [])
  }

  // ---------- The invariant ----------

  /** The book is what the finished operations make of the initial one, atomically and in order,
      followed by the done part of the plan in progress, which was fixed when it began. */
  ghost predicate Explained(env: Env, b0: Book, s: Sys) {
    var base := ApplyAll(env, b0, s.ops);
    && s.book.state == Run(b0.state, s.log)
    && match s.job
       case None => s.book == base
       case Some(j) =>
         && s.book == base.(state := Run(base.state, j.done))
         && PlanOf(env, base, j.work) == Plan(j.done + j.todo, j.end)
  }

  lemma StartExplained(env: Env, b0: Book, s: Sys, w: Work)
    requires Explained(env, b0, s) && s.job.None?
    ensures Explained(env, b0, Start(env, s, w))
  {
    hide PlanOf, ApplyAll;
    var p := PlanOf(env, s.book, w);
    assert [] + p.events == p.events;
  }

  lemma EventExplained(env: Env, b0: Book, s: Sys)
    requires Explained(env, b0, s)
    ensures Explained(env, b0, Next(env, s, DoEvent))
  {
    hide PlanOf, ApplyAll;
    if s.job.Some? && s.job.value.todo != [] {
      var j, base := s.job.value, ApplyAll(env, b0, s.ops);
      var e := j.todo[0];
      RunConcat(b0.state, s.log, [e]);
      RunConcat(base.state, j.done, [e]);
      RunOne(s.book.state, e);
      assert j.done + [e] + j.todo[1..] == j.done + j.todo;
    }
  }

  /** A plan carried out to its end is the atomic operation. */
  lemma WholePlan(env: Env, base: Book, w: Work, end: int)
    ensures var p := PlanOf(env, base, w);
            Apply(env, base, OpOf(w, end))
            == Book(Run(base.state, p.events), Closed(base.active, Job(w, p.events, [], p.end), end))
  {
    match w {
      case Activating(req, now) => RegisteredDispatch(req.id);
      case Deactivating(req) =>
      case Clearing => RunOne(base.state, ClearAll);
    }
  }

  lemma ApplyOneMore(env: Env, b: Book, ops: seq<Operation>, op: Operation)
    ensures ApplyAll(env, b, ops + [op]) == Apply(env, ApplyAll(env, b, ops), op)
  {
    hide Apply;
    ApplyConcat(env, b, ops, [op]);
    assert [op][1..] == [];
    var c := ApplyAll(env, b, ops);
    assert ApplyAll(env, c, [op]) == ApplyAll(env, Apply(env, c, op), []);
  }

  lemma FinishExplained(env: Env, b0: Book, s: Sys)
    requires Explained(env, b0, s)
    ensures Explained(env, b0, Next(env, s, Finish))
  {
    hide PlanOf, ApplyAll, Apply;
    if s.job.Some? && s.job.value.todo == [] {
      var j, base := s.job.value, ApplyAll(env, b0, s.ops);
      assert j.done + j.todo == j.done;
      WholePlan(env, base, j.work, s.clock);
      ApplyOneMore(env, b0, s.ops, OpOf(j.work, s.clock));
    }
  }

  lemma NextExplained(env: Env, b0: Book, s: Sys, a: Action)
    requires Explained(env, b0, s)
    ensures Explained(env, b0, Next(env, s, a))
  {
    hide PlanOf, ApplyAll, Run;
    match a {
      case BeginActivate(req) => if s.job.None? { StartExplained(env, b0, s, Activating(req, s.clock)); }
      case BeginDeactivate(req) => if s.job.None? { StartExplained(env, b0, s, Deactivating(req)); }
      case BeginClear => if s.job.None? { StartExplained(env, b0, s, Clearing); }
      case DoEvent => EventExplained(env, b0, s);
      case Finish => FinishExplained(env, b0, s);
      case Tick(d) =>
    }
  }

  lemma {:induction false} ExecExplained(env: Env, b0: Book, s: Sys, acts: seq<Action>)
    requires Explained(env, b0, s)
    ensures Explained(env, b0, Exec(env, s, acts))
    decreases acts
  {
    hide Explained, Next;
    if acts != [] {
      NextExplained(env, b0, s, acts[0]);
      ExecExplained(env, b0, Next(env, s, acts[0]), acts[1..]);
    }
  }

  // ---------- What holds of every run ----------

  /** Every interleaving refines the atomic manager: with no operation in progress the book is
      exactly that of the finished operations run atomically in lock order, and during one a reader
      sees that book plus exactly a prefix of the operation's events. */
  lemma RunsRefineAtomic(env: Env, b: Book, clock: int, acts: seq<Action>)
    ensures var s := Exec(env, Init(b, clock), acts);
            var base := ApplyAll(env, b, s.ops);
            match s.job
            case None => s.book == base
            case Some(j) =>
              && j.done <= PlanOf(env, base, j.work).events
              && s.book == Book(Run(base.state, j.done), base.active)
  {
    ExecExplained(env, b, Init(b, clock), acts);
  }

  /** No run loses a duplicate-free list or a well-kept active map, not even mid-operation. */
  lemma RunsStayConsistent(env: Env, b: Book, clock: int, acts: seq<Action>)
    requires Consistent(b)
    ensures Consistent(Exec(env, Init(b, clock), acts).book)
  {
    var s := Exec(env, Init(b, clock), acts);
    ExecExplained(env, b, Init(b, clock), acts);
    RunConsistent(env, b, s.ops);
    RunSound(b.state, s.log);
  }

  /** Event i is the last to touch the slot. */
  ghost predicate LastAt(log: seq<Event>, i: nat, slot: Slot) {
    && i < |log| && Touch(log[i], slot) != Keep
    && forall j :: i < j < |log| ==> Touch(log[j], slot) == Keep
  }

  lemma LastAtIs(log: seq<Event>, i: nat, slot: Slot)
    requires LastAt(log, i, slot)
    ensures Last(log, slot) == Touch(log[i], slot)
  {
    LastMeans(log, slot);
    if Last(log, slot) != Keep {
      var k :| 0 <= k < |log| && Touch(log[k], slot) == Last(log, slot)
               && forall j :: k < j < |log| ==> Touch(log[j], slot) == Keep;
      assert k == i;
    }
  }

  /** Over every interleaving of manager operations, reads and clock ticks from an empty registry,
      a reader finds in a slot what the last write to it since the last clear of the entity or of
      everything put there, if unexpired at the read; and nothing otherwise. */
  lemma ReaderSeesLastWrite(env: Env, b: Book, clock: int, acts: seq<Action>, slot: Slot, o: Override)
    requires b.state.metrics == map[] && b.state.properties == map[]
    ensures var s := Exec(env, Init(b, clock), acts);
            Seen(s.book.state, slot, s.clock) == Some(o)
            <==> exists i: nat, ref ::
                   LastAt(s.log, i, slot) && s.log[i] == Set(ref, o) && !Expired(ExpiryOf(o), s.clock)
  {
    var s := Exec(env, Init(b, clock), acts);
    ExecExplained(env, b, Init(b, clock), acts);
    RunLookup(b.state, s.log, slot);
    assert Lookup(b.state, slot) == None;
    LastWritten(s.log, slot, o);
  }

  /** `Last` says Wrote(o) exactly when the last event to touch the slot sets o. */
  lemma LastWritten(log: seq<Event>, slot: Slot, o: Override)
    ensures Last(log, slot) == Wrote(o) <==> exists i: nat, ref :: LastAt(log, i, slot) && log[i] == Set(ref, o)
  {
    LastMeans(log, slot);
    if Last(log, slot) == Wrote(o) {
      var i :| 0 <= i < |log| && Touch(log[i], slot) == Last(log, slot)
               && forall j :: i < j < |log| ==> Touch(log[j], slot) == Keep;
      assert LastAt(log, i, slot) && log[i] == Set(log[i].ref, o);
    }
    forall i: nat, ref | LastAt(log, i, slot) && log[i] == Set(ref, o) ensures Last(log, slot) == Wrote(o) {
      LastAtIs(log, i, slot);
    }
  }

  /** In particular QueryPerf answers with the last written values of the counter and instance. */
  lemma QueryPerfAnswersLastWrite(
    env: Env, b: Book, clock: int, acts: seq<Action>, entity: Ref, c: Counter, values: seq<int>)
    requires b.state.metrics == map[] && b.state.properties == map[]
    ensures var s := Exec(env, Init(b, clock), acts);
            HookAnswer(s.book.state.metrics, entity, c.id, c.inst, s.clock) == Some(values)
            <==> exists i: nat, ref, m ::
                   && LastAt(s.log, i, MetricSlot(MorKey(entity), c))
                   && s.log[i] == Set(ref, Metric(m)) && m.value == values && !Expired(m.expires, s.clock)
  {
    hide Exec;
    var s := Exec(env, Init(b, clock), acts);
    var slot := MetricSlot(MorKey(entity), c);
    forall m: MetricOverride
      ensures Seen(s.book.state, slot, s.clock) == Some(Metric(m))
              <==> exists i: nat, ref ::
                     LastAt(s.log, i, slot) && s.log[i] == Set(ref, Metric(m)) && !Expired(m.expires, s.clock)
    {
      ReaderSeesLastWrite(env, b, clock, acts, slot, Metric(m));
    }
    var seen := Seen(s.book.state, slot, s.clock);
    assert seen.Some? ==> seen == Some(Metric(seen.value.m));
  }
}
