/** What the actions of an interleaved run alone determine: when the manager lock is held and by whom, the clock
    readings of every operation, and the book. The small-step system is proved to agree. */
module Schedules {
  import opened Wrappers
  import opened Overrides
  import opened Engine
  import opened Plans
  import opened ActiveKeys
  import opened Lifecycle
  import opened Footprints
  import opened Interleaving

  // ---------- Read off the actions ----------

  /** The time that has passed: the sum of the ticks. */
  function Elapsed(acts: seq<Action>): nat {
    if acts == [] then 0
    else Elapsed(acts[..|acts| - 1]) + (match acts[|acts| - 1] case Tick(d) => d case _ => 0)
  }

  predicate Begins(a: Action) {
    a.BeginActivate? || a.BeginDeactivate? || a.BeginClear?
  }

  /** The atomic operation an action begins, when it begins at `now` and finishes at `end`. */
  function Whole(env: Env, b: Book, a: Action, now: int, end: int): Book
    requires Begins(a)
  {
    match a
    case BeginActivate(req) => Activated(env, b, req, now, end).0
    case BeginDeactivate(req) => Deactivated(env, b, req).0
    case BeginClear => AllCleared(b)
  }

  /** The registry writes, clears and tasks of that operation, in order. */
  function EventsOf(env: Env, b: Book, a: Action, now: int): seq<Event>
    requires Begins(a)
  {
    match a
    case BeginActivate(req) => RequestPlan(env, req, now, b.state.calls).events
    case BeginDeactivate(req) =>
      if Key(req.id, req.targets) in b.active then
        DeactivationEvents(env, Dispatch(req.id), req.targets, b.state.calls)
      else []
    case BeginClear => [ClearAll]
  }

  function Steps(env: Env, b: Book, a: Action, now: int): nat
    requires Begins(a)
  {
    |EventsOf(env, b, a, now)|
  }

  /** The lock: free, or taken by the action at index `from` with `left` events to come. The book is that of the
      operations finished so far. */
  datatype Lock = Free(book: Book) | Held(book: Book, from: nat, left: nat)

  /** What one more action does: only a Begin takes the lock, only a Finish with nothing left to do frees it. */
  function LockNext(env: Env, clock: int, acts: seq<Action>, l: Lock, a: Action): Lock
    requires l.Held? ==> l.from < |acts| && Begins(acts[l.from])
  {
    match l
    case Free(c) => if Begins(a) then Held(c, |acts|, Steps(env, c, a, clock + Elapsed(acts))) else l
    case Held(c, from, left) =>
      if a.DoEvent? && left > 0 then Held(c, from, left - 1)
      else if a.Finish? && left == 0 then
        Free(Whole(env, c, acts[from], clock + Elapsed(acts[..from]), clock + Elapsed(acts)))
      else l
  }

  function LockAfter(env: Env, b: Book, clock: int, acts: seq<Action>): (l: Lock)
    ensures l.Held? ==> l.from < |acts| && Begins(acts[l.from])
    decreases |acts|
  {
    if acts == [] then Free(b)
    else
      var init := acts[..|acts| - 1];
      LockNext(env, clock, init, LockAfter(env, b, clock, init), acts[|acts| - 1])
  }

  /** From the index of a Begin that got the lock to that of its Finish. */
  datatype Span = Span(from: nat, to: nat)

  predicate Releases(l: Lock, a: Action) {
    l.Held? && l.left == 0 && a.Finish?
  }

  function Spans(env: Env, b: Book, clock: int, acts: seq<Action>): (spans: seq<Span>)
    ensures forall k :: 0 <= k < |spans| ==>
              spans[k].from < spans[k].to < |acts| && Begins(acts[spans[k].from]) && acts[spans[k].to].Finish?
    decreases |acts|
  {
    if acts == [] then []
    else
      var init, a := acts[..|acts| - 1], acts[|acts| - 1];
      var l := LockAfter(env, b, clock, init);
      Spans(env, b, clock, init) + (if Releases(l, a) then [Span(l.from, |init|)] else [])
  }

  /** The operation of a span, with the clock of its Begin and of its Finish. */
  function SpanOp(acts: seq<Action>, clock: int, sp: Span): Operation
    requires sp.from < sp.to <= |acts| && Begins(acts[sp.from])
  {
    match acts[sp.from]
    case BeginActivate(req) => Activate(req, clock + Elapsed(acts[..sp.from]), clock + Elapsed(acts[..sp.to]))
    case BeginDeactivate(req) => Deactivate(req)
    case BeginClear => ClearEverything
  }

  function WorkOf(a: Action, now: int): Work
    requires Begins(a)
  {
    match a
    case BeginActivate(req) => Activating(req, now)
    case BeginDeactivate(req) => Deactivating(req)
    case BeginClear => Clearing
  }

  // ---------- The small-step system agrees ----------

  /** The running system is what its actions say. */
  ghost predicate Follows(env: Env, b: Book, clock: int, acts: seq<Action>, s: Sys) {
    var l, spans := LockAfter(env, b, clock, acts), Spans(env, b, clock, acts);
    && s.clock == clock + Elapsed(acts)
    && |s.ops| == |spans| && (forall k :: 0 <= k < |spans| ==> s.ops[k] == SpanOp(acts, clock, spans[k]))
    && match l
       case Free(c) => s.job.None? && s.book == c
       case Held(c, from, left) =>
         && s.job.Some? && |s.job.value.todo| == left
         && s.job.value.work == WorkOf(acts[from], clock + Elapsed(acts[..from]))
         && s.book == Book(Run(c.state, s.job.value.done), c.active)
         && PlanOf(env, c, s.job.value.work) == Plan(s.job.value.done + s.job.value.todo, s.job.value.end)
  }

  lemma {:induction false} ExecOneMore(env: Env, s: Sys, acts: seq<Action>, a: Action)
    ensures Exec(env, s, acts + [a]) == Next(env, Exec(env, s, acts), a)
    decreases acts
  {
    hide Next;
    if acts == [] {
      assert [] + [a] == [a] && [a][1..] == [];
      assert Exec(env, Next(env, s, a), []) == Next(env, s, a);
    } else {
      assert (acts + [a])[1..] == acts[1..] + [a];
      ExecOneMore(env, Next(env, s, acts[0]), acts[1..], a);
    }
  }

  /** Earlier indices mean the same in a longer run. */
  lemma SpansStay(env: Env, b: Book, clock: int, acts: seq<Action>, a: Action)
    ensures var spans, longer := Spans(env, b, clock, acts), acts + [a];
            forall k :: 0 <= k < |spans| ==> SpanOp(longer, clock, spans[k]) == SpanOp(acts, clock, spans[k])
  {
    var spans, longer := Spans(env, b, clock, acts), acts + [a];
    forall k | 0 <= k < |spans| ensures SpanOp(longer, clock, spans[k]) == SpanOp(acts, clock, spans[k]) {
      assert longer[..spans[k].from] == acts[..spans[k].from] && longer[..spans[k].to] == acts[..spans[k].to];
    }
  }

  lemma PlanSteps(env: Env, c: Book, a: Action, now: int)
    requires Begins(a)
    ensures PlanOf(env, c, WorkOf(a, now)).events == EventsOf(env, c, a, now)
    ensures |PlanOf(env, c, WorkOf(a, now)).events| == Steps(env, c, a, now)
  {
    hide RequestPlan, DeactivationEvents, Key;
  }

  lemma WholeIs(env: Env, c: Book, a: Action, now: int, end: int)
    requires Begins(a)
    ensures var w := WorkOf(a, now);
            var p := PlanOf(env, c, w);
            Whole(env, c, a, now, end)
            == Book(Run(c.state, p.events), Closed(c.active, Job(w, p.events, [], p.end), end))
  {
    hide Run, PlanOf, Activated, Deactivated, AllCleared;
    WholePlan(env, c, WorkOf(a, now), end);
  }

  lemma OneMoreAction(env: Env, b: Book, clock: int, acts: seq<Action>, a: Action)
    ensures var l, longer := LockAfter(env, b, clock, acts), acts + [a];
            && LockAfter(env, b, clock, longer) == LockNext(env, clock, acts, l, a)
            && Spans(env, b, clock, longer)
               == Spans(env, b, clock, acts) + (if Releases(l, a) then [Span(l.from, |acts|)] else [])
            && Elapsed(longer) == Elapsed(acts) + (match a case Tick(d) => d case _ => 0)
            && longer[..|acts|] == acts && longer[|acts|] == a
  {
    hide Whole, Steps, LockNext;
    var longer := acts + [a];
    assert longer[..|longer| - 1] == acts;
  }

  lemma FollowsBegin(env: Env, b: Book, clock: int, acts: seq<Action>, s: Sys, a: Action)
    requires Follows(env, b, clock, acts, s) && Begins(a)
    ensures Follows(env, b, clock, acts + [a], Next(env, s, a))
  {
    hide Steps, PlanOf, Run, LockAfter, Spans, Whole, SpanOp, Elapsed, EventsOf, Start, Next;
    OneMoreAction(env, b, clock, acts, a);
    NextBegin(env, s, a);
    SpansStay(env, b, clock, acts, a);
    var l, longer := LockAfter(env, b, clock, acts), acts + [a];
    if l.Free? {
      var w := WorkOf(a, s.clock);
      PlanSteps(env, l.book, a, s.clock);
      RunNone(l.book.state);
      StartedIs(env, s, w);
      assert [] + PlanOf(env, s.book, w).events == PlanOf(env, s.book, w).events;
      assert longer[|acts|] == a;
    } else {
      assert longer[l.from] == acts[l.from] && longer[..l.from] == acts[..l.from];
    }
  }

  lemma NextBegin(env: Env, s: Sys, a: Action)
    requires Begins(a)
    ensures Next(env, s, a) == if s.job.None? then Start(env, s, WorkOf(a, s.clock)) else s
  {
    hide Start;
  }

  lemma StartIs(env: Env, s: Sys, a: Action)
    requires Begins(a) && s.job.None?
    ensures Next(env, s, a) == Start(env, s, WorkOf(a, s.clock))
  {
    hide Start;
  }

  lemma FollowsEvent(env: Env, b: Book, clock: int, acts: seq<Action>, s: Sys)
    requires Follows(env, b, clock, acts, s)
    ensures Follows(env, b, clock, acts + [DoEvent], Next(env, s, DoEvent))
  {
    hide Steps, PlanOf, Run, LockAfter, Spans, Whole, SpanOp, Elapsed, Step;
    OneMoreAction(env, b, clock, acts, DoEvent);
    SpansStay(env, b, clock, acts, DoEvent);
    var l, longer := LockAfter(env, b, clock, acts), acts + [DoEvent];
    if l.Held? {
      assert longer[l.from] == acts[l.from] && longer[..l.from] == acts[..l.from];
      if l.left > 0 {
        var j := s.job.value;
        RunConcat(l.book.state, j.done, [j.todo[0]]);
        RunOne(Run(l.book.state, j.done), j.todo[0]);
        assert j.done + [j.todo[0]] + j.todo[1..] == j.done + j.todo;
      }
    }
  }

  lemma FollowsFinish(env: Env, b: Book, clock: int, acts: seq<Action>, s: Sys)
    requires Follows(env, b, clock, acts, s)
    ensures Follows(env, b, clock, acts + [Finish], Next(env, s, Finish))
  {
    hide Steps, PlanOf, Run, LockAfter, Spans, Whole, Elapsed, Closed;
    OneMoreAction(env, b, clock, acts, Finish);
    SpansStay(env, b, clock, acts, Finish);
    var l, longer := LockAfter(env, b, clock, acts), acts + [Finish];
    if l.Held? {
      assert longer[l.from] == acts[l.from] && longer[..l.from] == acts[..l.from];
      if l.left == 0 {
        var j := s.job.value;
        assert j.done + j.todo == j.done;
        WholeIs(env, l.book, acts[l.from], clock + Elapsed(acts[..l.from]), s.clock);
        ClosedSame(l.book.active, j, Job(j.work, j.done, [], j.end), s.clock);
        OpIs(longer, clock, Span(l.from, |acts|));
      }
    }
  }

  lemma ClosedSame(active: ActiveMap, j: Job, j': Job, end: int)
    requires j.work == j'.work && j.end == j'.end
    ensures Closed(active, j, end) == Closed(active, j', end)
  {
  }

  lemma OpIs(acts: seq<Action>, clock: int, sp: Span)
    requires sp.from < sp.to <= |acts| && Begins(acts[sp.from])
    ensures SpanOp(acts, clock, sp)
            == OpOf(WorkOf(acts[sp.from], clock + Elapsed(acts[..sp.from])), clock + Elapsed(acts[..sp.to]))
  {
    hide Elapsed;
  }

  lemma FollowsTick(env: Env, b: Book, clock: int, acts: seq<Action>, s: Sys, d: nat)
    requires Follows(env, b, clock, acts, s)
    ensures Follows(env, b, clock, acts + [Tick(d)], Next(env, s, Tick(d)))
  {
    hide Steps, PlanOf, Run, LockAfter, Spans, Whole, SpanOp, Elapsed;
    OneMoreAction(env, b, clock, acts, Tick(d));
    SpansStay(env, b, clock, acts, Tick(d));
    var l, longer := LockAfter(env, b, clock, acts), acts + [Tick(d)];
    if l.Held? {
      assert longer[l.from] == acts[l.from] && longer[..l.from] == acts[..l.from];
    }
  }

  lemma {:induction false} ExecFollows(env: Env, b: Book, clock: int, acts: seq<Action>)
    ensures Follows(env, b, clock, acts, Exec(env, Init(b, clock), acts))
    decreases |acts|
  {
    hide Next, Follows;
    if acts == [] {
      NothingYet(env, b, clock);
    } else {
      var init, a := acts[..|acts| - 1], acts[|acts| - 1];
      var s := Exec(env, Init(b, clock), init);
      assert acts == init + [a];
      ExecFollows(env, b, clock, init);
      ExecOneMore(env, Init(b, clock), init, a);
      match a {
        case DoEvent => FollowsEvent(env, b, clock, init, s);
        case Finish => FollowsFinish(env, b, clock, init, s);
        case Tick(d) => FollowsTick(env, b, clock, init, s, d);
        case _ => FollowsBegin(env, b, clock, init, s, a);
      }
    }
  }

  lemma NothingYet(env: Env, b: Book, clock: int)
    ensures Follows(env, b, clock, [], Init(b, clock))
  {
  }

  /** Every run is what its actions alone say. The clock is the start plus the ticks. The finished operations
      are those of the spans, each activation with the clock of its own Begin and its own Finish. With the lock
      free the book is that of these operations; while it is held, the operation in progress began at its own
      clock, and a reader sees that book with exactly the events of it that are done. */
  lemma RunsFollowActions(env: Env, b: Book, clock: int, acts: seq<Action>)
    ensures var s := Exec(env, Init(b, clock), acts);
            var l, spans := LockAfter(env, b, clock, acts), Spans(env, b, clock, acts);
            && s.clock == clock + Elapsed(acts)
            && |s.ops| == |spans| && (forall k :: 0 <= k < |spans| ==> s.ops[k] == SpanOp(acts, clock, spans[k]))
            && (s.job.None? <==> l.Free?) && (l.Free? ==> s.book == l.book)
            && (l.Held? ==>
                  && s.job.Some? && s.job.value.work == WorkOf(acts[l.from], clock + Elapsed(acts[..l.from]))
                  && |s.job.value.todo| == l.left && s.book == Book(Run(l.book.state, s.job.value.done), l.book.active))
  {
    hide Exec, LockAfter, Spans, SpanOp, Run, Elapsed, WorkOf, PlanOf;
    ExecFollows(env, b, clock, acts);
  }

  // ---------- The log ----------

  /** The event a DoEvent carries out: the next one of the operation that holds the lock. */
  function NextEvent(env: Env, clock: int, acts: seq<Action>, l: Lock, a: Action): seq<Event>
    requires l.Held? ==> l.from < |acts| && Begins(acts[l.from])
  {
    if l.Held? && l.left > 0 && a.DoEvent? then
      var es := EventsOf(env, l.book, acts[l.from], clock + Elapsed(acts[..l.from]));
      if l.left <= |es| then [es[|es| - l.left]] else []
    else []
  }

  /** The events of a run, read off its actions. */
  function LogAfter(env: Env, b: Book, clock: int, acts: seq<Action>): seq<Event>
    decreases |acts|
  {
    if acts == [] then []
    else
      var init := acts[..|acts| - 1];
      LogAfter(env, b, clock, init) + NextEvent(env, clock, init, LockAfter(env, b, clock, init), acts[|acts| - 1])
  }

  lemma {:induction false} LogFollows(env: Env, b: Book, clock: int, acts: seq<Action>)
    ensures Exec(env, Init(b, clock), acts).log == LogAfter(env, b, clock, acts)
    decreases |acts|
  {
    hide Follows, LockAfter, NextEvent, Next;
    if acts != [] {
      var init, a := acts[..|acts| - 1], acts[|acts| - 1];
      assert acts == init + [a];
      LogFollows(env, b, clock, init);
      ExecFollows(env, b, clock, init);
      ExecOneMore(env, Init(b, clock), init, a);
      NextLogs(env, b, clock, init, Exec(env, Init(b, clock), init), a);
    }
  }

  lemma NextLogs(env: Env, b: Book, clock: int, acts: seq<Action>, s: Sys, a: Action)
    requires Follows(env, b, clock, acts, s)
    ensures Next(env, s, a).log == s.log + NextEvent(env, clock, acts, LockAfter(env, b, clock, acts), a)
  {
    hide PlanOf, EventsOf, LockAfter, Spans, Run, Elapsed, SpanOp, Step, Closed, OpOf;
    var l := LockAfter(env, b, clock, acts);
    if l.Held? {
      PlanSteps(env, l.book, acts[l.from], clock + Elapsed(acts[..l.from]));
      if l.left > 0 {
        var j := s.job.value;
        assert (j.done + j.todo)[|j.done|] == j.todo[0];
      }
    }
  }

  /** QueryPerf over any interleaving from an empty registry, read off the actions: the values of the last write
      to the counter that some operation's Begin and DoEvents brought about, since its last clear, unless that
      write has expired at the start plus the ticks; else nothing. */
  lemma QueryPerfOfActions(
    env: Env, b: Book, clock: int, acts: seq<Action>, entity: Ref, c: Counter, values: seq<int>)
    requires b.state.metrics == map[] && b.state.properties == map[]
    ensures var log, now := LogAfter(env, b, clock, acts), clock + Elapsed(acts);
            HookAnswer(Exec(env, Init(b, clock), acts).book.state.metrics, entity, c.id, c.inst, now) == Some(values)
            <==> exists i: nat, ref, m ::
                   && LastAt(log, i, MetricSlot(MorKey(entity), c))
                   && log[i] == Set(ref, Metric(m)) && m.value == values && !Expired(m.expires, now)
  {
    hide Exec, LastAt, HookAnswer, LogAfter, LockAfter, Spans, SpanOp, Elapsed, MorKey, WorkOf, Expired;
    LogFollows(env, b, clock, acts);
    RunsFollowActions(env, b, clock, acts);
    QueryPerfAnswersLastWrite(env, b, clock, acts, entity, c, values);
  }

  // ---------- Which actions get the lock ----------

  /** The Begin at index i takes the lock of a finished operation or of the one in progress. */
  ghost predicate Takes(env: Env, b: Book, clock: int, acts: seq<Action>, i: nat) {
    var l, spans := LockAfter(env, b, clock, acts), Spans(env, b, clock, acts);
    (l.Held? && l.from == i) || exists k :: 0 <= k < |spans| && spans[k].from == i
  }

  lemma TakesOneMore(env: Env, b: Book, clock: int, acts: seq<Action>, a: Action, i: nat)
    requires i <= |acts|
    ensures Takes(env, b, clock, acts + [a], i)
            <==> Takes(env, b, clock, acts, i) || (i == |acts| && Begins(a) && LockAfter(env, b, clock, acts).Free?)
  {
    hide LockAfter, Spans, Steps, Whole, Elapsed;
    OneMoreAction(env, b, clock, acts, a);
    var l, spans, more := LockAfter(env, b, clock, acts), Spans(env, b, clock, acts), Spans(env, b, clock, acts + [a]);
    assert forall k :: 0 <= k < |spans| ==> more[k] == spans[k];
    if Releases(l, a) {
      assert more[|spans|].from == l.from;
    }
  }

  /** The operations that run are exactly those whose Begin came while the lock was free, in the order of these
      Begins, and no two of them overlap. */
  lemma {:induction false} BeginsTakeFreeLock(env: Env, b: Book, clock: int, acts: seq<Action>, i: nat)
    requires i < |acts|
    ensures Takes(env, b, clock, acts, i) <==> Begins(acts[i]) && LockAfter(env, b, clock, acts[..i]).Free?
    decreases |acts|
  {
    hide Takes, LockAfter;
    var init, a := acts[..|acts| - 1], acts[|acts| - 1];
    assert acts == init + [a];
    TakesOneMore(env, b, clock, init, a, i);
    if i < |init| {
      BeginsTakeFreeLock(env, b, clock, init, i);
      assert init[..i] == acts[..i] && init[i] == acts[i];
    } else {
      assert acts[..i] == init;
      NotYetTaken(env, b, clock, init, i);
    }
  }

  lemma NotYetTaken(env: Env, b: Book, clock: int, acts: seq<Action>, i: nat)
    requires i >= |acts|
    ensures !Takes(env, b, clock, acts, i)
  {
    hide LockAfter, Spans;
  }

  lemma {:induction false} SpansInTurn(env: Env, b: Book, clock: int, acts: seq<Action>)
    ensures var l, spans := LockAfter(env, b, clock, acts), Spans(env, b, clock, acts);
            && (forall k :: 0 < k < |spans| ==> spans[k - 1].to < spans[k].from)
            && (l.Held? && spans != [] ==> spans[|spans| - 1].to < l.from)
    decreases |acts|
  {
    hide LockAfter, Spans, Steps, Whole, Elapsed;
    if acts == [] {
      NoSpans(env, b, clock);
    } else {
      var init, a := acts[..|acts| - 1], acts[|acts| - 1];
      assert acts == init + [a];
      SpansInTurn(env, b, clock, init);
      OneMoreAction(env, b, clock, init, a);
    }
  }

  lemma NoSpans(env: Env, b: Book, clock: int)
    ensures Spans(env, b, clock, []) == [] && LockAfter(env, b, clock, []).Free?
  {
  }

  // ---------- One operation by itself ----------

  function DoEvents(n: nat): (acts: seq<Action>)
    ensures |acts| == n
  {
    seq(n, i => DoEvent)
  }

  lemma {:induction false} ExecConcat(env: Env, s: Sys, xs: seq<Action>, ys: seq<Action>)
    ensures Exec(env, s, xs + ys) == Exec(env, Exec(env, s, xs), ys)
    decreases xs
  {
    hide Next;
    if xs == [] {
      assert xs + ys == ys;
    } else {
      assert (xs + ys)[1..] == xs[1..] + ys;
      ExecConcat(env, Next(env, s, xs[0]), xs[1..], ys);
    }
  }

  lemma {:induction false} AllEvents(env: Env, s: Sys)
    requires s.job.Some?
    ensures var j, s' := s.job.value, Exec(env, s, DoEvents(|s.job.value.todo|));
            && s'.book == Book(Run(s.book.state, j.todo), s.book.active)
            && s'.clock == s.clock && s'.ops == s.ops
            && s'.job == Some(Job(j.work, j.done + j.todo, [], j.end))
    decreases |s.job.value.todo|
  {
    hide Step;
    var j := s.job.value;
    if j.todo == [] {
      assert DoEvents(0) == [] && j.done + [] == j.done;
    } else {
      var n := |j.todo|;
      assert DoEvents(n)[0] == DoEvent && DoEvents(n)[1..] == DoEvents(n - 1);
      AllEvents(env, Next(env, s, DoEvent));
      assert j.done + [j.todo[0]] + j.todo[1..] == j.done + j.todo;
    }
  }

  /** From any idle system, a Begin, as many events as the operation has, and Finish do the whole operation, at
      the clock of the system, and leave it idle. */
  lemma SoloRun(env: Env, s: Sys, a: Action)
    requires s.job.None? && Begins(a)
    ensures var acts := [a] + DoEvents(Steps(env, s.book, a, s.clock)) + [Finish];
            var s' := Exec(env, s, acts);
            && s'.book == Whole(env, s.book, a, s.clock, s.clock)
            && s'.job.None? && s'.clock == s.clock
  {
    hide Whole, Steps, PlanOf, Run, Closed, Start, OpOf;
    var n, w := Steps(env, s.book, a, s.clock), WorkOf(a, s.clock);
    var p := PlanOf(env, s.book, w);
    var s1 := Next(env, s, a);
    StartIs(env, s, a);
    StartedIs(env, s, w);
    PlanSteps(env, s.book, a, s.clock);
    OneAction(env, s, a);
    ExecConcat(env, s, [a], DoEvents(n));
    AllEvents(env, s1);
    var s2 := Exec(env, s, [a] + DoEvents(n));
    ExecOneMore(env, s, [a] + DoEvents(n), Finish);
    assert [] + p.events == p.events;
    WholeIs(env, s.book, a, s.clock, s.clock);
    ClosedSame(s.book.active, s2.job.value, Job(w, p.events, [], p.end), s.clock);
  }

  lemma StartedIs(env: Env, s: Sys, w: Work)
    ensures var p := PlanOf(env, s.book, w);
            Start(env, s, w) == s.(job := Some(Job(w, [], p.events, p.end)))
  {
    hide PlanOf;
  }

  lemma OneAction(env: Env, s: Sys, a: Action)
    ensures Exec(env, s, [a]) == Next(env, s, a)
  {
    hide Next;
    assert [a][1..] == [];
    assert Exec(env, Next(env, s, a), []) == Next(env, s, a);
  }

  /** So an Activate of a registered id shows its overrides from then on for exactly its duration: read d
      nanoseconds later, each slot it wrote answers until the duration, in seconds, is over. */
  lemma SoloActivationLasts(env: Env, s: Sys, req: Request, d: nat, slot: Slot)
    requires s.job.None? && req.id in REGISTERED
    ensures var a := BeginActivate(req);
            var acts := [a] + DoEvents(Steps(env, s.book, a, s.clock)) + [Finish];
            var s' := Next(env, Exec(env, s, acts), Tick(d));
            var written := Last(RequestPlan(env, req, s.clock, s.book.state.calls).events, slot);
            && s'.clock == s.clock + d
            && (written.Wrote? ==>
                  Seen(s'.book.state, slot, s'.clock)
                  == if req.duration > 0 && d > req.duration * 1_000_000_000 then None else Some(written.o))
  {
    hide Exec, Steps, RequestPlan, Last, Seen, Activated;
    SoloRun(env, s, BeginActivate(req));
    ActivationExpires(env, s.book, req, s.clock, s.clock, slot, s.clock + d);
  }
}
