/** What each scenario id makes QueryPerf and property reads answer, with the values written out. */
module Effects {
  import opened Wrappers
  import opened Overrides
  import opened Engine
  import opened Samples
  import opened Plans
  import opened Lifecycle
  import opened Footprints
  import opened Reach
  import opened HostLoads

  // ---------- What readers get ----------

  /** One answer: the values of a counter without instance, or the value of a property. */
  datatype Reading = Meter(id: int, values: seq<int>) | Prop(name: string, value: PropValue)

  predicate Listed(rs: seq<Reading>, slot: Slot) {
    match slot
    case MetricSlot(_, c) => c.inst == "" && exists i :: 0 <= i < |rs| && rs[i].Meter? && rs[i].id == c.id
    case PropertySlot(_, p) => exists i :: 0 <= i < |rs| && rs[i].Prop? && rs[i].name == p
  }

  /** At time t the request's duration, in seconds from `now`, is over. */
  predicate Lapsed(req: Request, now: int, t: int) {
    req.duration > 0 && t > now + req.duration * 1_000_000_000
  }

  function AnswerOf(s: State, ref: Ref, r: Reading, t: int): Option<Reading> {
    match r
    case Meter(id, _) =>
      var a := HookAnswer(s.metrics, ref, id, "", t); if a.Some? then Some(Meter(id, a.value)) else None
    case Prop(name, _) =>
      var a := PropertyAnswer(s.properties, ref, name, t); if a.Some? then Some(Prop(name, a.value)) else None
  }

  /** The entity answers exactly these readings until the request lapses and nothing for them afterwards;
      all its other overrides are as before. */
  ghost predicate Answers(before: State, after: State, ref: Ref, rs: seq<Reading>, req: Request, now: int) {
    && (forall r, t :: r in rs ==> AnswerOf(after, ref, r, t) == if Lapsed(req, now, t) then None else Some(r))
    && (forall slot: Slot :: slot.key == MorKey(ref) && !Listed(rs, slot) ==>
          Lookup(after, slot) == Lookup(before, slot))
  }

  function Stands(r: Reading, x: Expiry): Override {
    match r
    case Meter(id, values) => Metric(Entry(Counter(id, ""), values, x))
    case Prop(name, value) => Property(Entry(name, value, x))
  }

  function StandAll(rs: seq<Reading>, x: Expiry): (ws: seq<Override>)
    ensures |ws| == |rs| && forall i :: 0 <= i < |rs| ==> ws[i] == Stands(rs[i], x)
  {
    seq(|rs|, i requires 0 <= i < |rs| => Stands(rs[i], x))
  }

  lemma TakesAnswers(before: State, after: State, ref: Ref, rs: seq<Reading>, req: Request, now: int)
    requires TakesWrites(before, after, ref, StandAll(rs, ExpiryFor(req, now)))
    ensures Answers(before, after, ref, rs, req, now)
  {
    hide OnceEach;
    var x := ExpiryFor(req, now);
    var ws := StandAll(rs, x);
    forall r, t | r in rs ensures AnswerOf(after, ref, r, t) == if Lapsed(req, now, t) then None else Some(r) {
      var i :| 0 <= i < |rs| && rs[i] == r;
      assert ws[i] == Stands(r, x) && ws[i] in ws;
      StandingAnswers(after, ref, r, x, t);
    }
    forall slot: Slot | slot.key == MorKey(ref) && !Listed(rs, slot)
      ensures Lookup(after, slot) == Lookup(before, slot)
    {
      forall o | o in ws ensures SlotAt(slot.key, o) != slot {
        var i :| 0 <= i < |ws| && ws[i] == o;
        assert o == Stands(rs[i], x);
      }
    }
  }

  lemma StandingAnswers(s: State, ref: Ref, r: Reading, x: Expiry, t: int)
    requires Lookup(s, SlotOf(ref, Stands(r, x))) == Some(Stands(r, x))
    ensures AnswerOf(s, ref, r, t) == if Expired(x, t) then None else Some(r)
  {
  }

  // ---------- Writes of a whole activation ----------

  /** Events that write these overrides on the entity, in whatever order and however often, and nothing else
      on it. */
  lemma TakesFromEvents(s: State, es: seq<Event>, ref: Ref, ws: seq<Override>)
    requires OnceEach(ws)
    requires forall o :: o in ws ==> exists e :: e in es && e.Set? && MorKey(e.ref) == MorKey(ref) && e.o == o
    requires forall e :: e in es ==> e.Call? || (e.Set? && (MorKey(e.ref) == MorKey(ref) ==> e.o in ws))
    ensures TakesWrites(s, Run(s, es), ref, ws)
  {
    hide Run, Last, Lookup;
    forall o | o in ws ensures Lookup(Run(s, es), SlotOf(ref, o)) == Some(o) {
      WrittenLast(es, ref, ws, o);
      RunLookup(s, es, SlotOf(ref, o));
    }
    forall slot: Slot | slot.key == MorKey(ref) && forall o :: o in ws ==> SlotAt(slot.key, o) != slot
      ensures Lookup(Run(s, es), slot) == Lookup(s, slot)
    {
      LastMeans(es, slot);
      forall i | 0 <= i < |es| ensures Touch(es[i], slot) == Keep {
        assert es[i] in es;
      }
      RunLookup(s, es, slot);
    }
  }

  lemma WrittenLast(es: seq<Event>, ref: Ref, ws: seq<Override>, o: Override)
    requires OnceEach(ws) && o in ws && exists e :: e in es && e.Set? && MorKey(e.ref) == MorKey(ref) && e.o == o
    requires forall e :: e in es ==> e.Call? || (e.Set? && (MorKey(e.ref) == MorKey(ref) ==> e.o in ws))
    ensures Last(es, SlotOf(ref, o)) == Wrote(o)
  {
    hide Last;
    var slot := SlotOf(ref, o);
    LastMeans(es, slot);
    var e :| e in es && e.Set? && MorKey(e.ref) == MorKey(ref) && e.o == o;
    var k :| 0 <= k < |es| && es[k] == e;
    assert Touch(es[k], slot) == Wrote(o);
    var i :| 0 <= i < |es| && Touch(es[i], slot) == Last(es, slot) && Touch(es[i], slot) != Keep;
    assert es[i] in es && es[i].Set? && SlotOf(es[i].ref, es[i].o) == slot;
    SameSlotSame(ws, ref, es[i].o, o);
  }

  lemma SameSlotSame(ws: seq<Override>, ref: Ref, o: Override, o': Override)
    requires OnceEach(ws) && o in ws && o' in ws && SlotOf(ref, o) == SlotOf(ref, o')
    ensures o == o'
  {
    var i :| 0 <= i < |ws| && ws[i] == o;
    var j :| 0 <= j < |ws| && ws[j] == o';
    assert SlotAt("", ws[i]) == SlotAt("", ws[j]);
  }

  // ---------- Target-only scenarios ----------

  /** The request succeeds exactly when all targets are found, and then every target answers these readings. */
  ghost predicate Leaves(env: Env, b: Book, req: Request, now: int, end: int, rs: seq<Reading>) {
    var (b', r) := Activated(env, b, req, now, end);
    && (r == Ok <==> forall t :: t in req.targets ==> t in env.objects)
    && (r == Ok ==> forall t :: t in req.targets ==> Answers(b.state, b'.state, env.objects[t], rs, req, now))
  }

  lemma TargetTakes(env: Env, b: Book, req: Request, now: int, end: int, target: string)
    requires IsTargetOnly(req) && Activated(env, b, req, now, end).1 == Ok
    requires target in req.targets && target in env.objects
    ensures TakesWrites(b.state, Activated(env, b, req, now, end).0.state, env.objects[target],
                        TargetWrites(Dispatch(req.id).value, req.params, ExpiryFor(req, now)))
  {
    hide ActivationPlan, TargetWrites, TargetOnly, Run, Last, Lookup, OnceEach;
    var sc, x := Dispatch(req.id).value, ExpiryFor(req, now);
    var ws, ref := TargetWrites(sc, req.params, x), env.objects[target];
    var es := ActivationPlan(env, sc, req.targets, req.params, x, b.state.calls).events;
    RegisteredDispatch(req.id);
    OneWritesOnce(sc, req.params, x);
    forall slot: Slot | slot.key == MorKey(ref)
      ensures Lands(ws, slot, Last(es, slot))
      ensures Lookup(Run(b.state, es), slot) == After(Lookup(b.state, slot), Last(es, slot))
    {
      assert slot.key in TargetKeys(env, req.targets);
      PlanLands(env, sc, req.targets, req.params, x, b.state.calls, slot);
      RunLookup(b.state, es, slot);
    }
    forall o | o in ws ensures Lookup(Run(b.state, es), SlotOf(ref, o)) == Some(o) {
      assert SlotOf(ref, o).key == MorKey(ref);
    }
  }

  lemma TargetLeaves(env: Env, b: Book, req: Request, now: int, end: int, sc: Scenario, rs: seq<Reading>)
    requires Dispatch(req.id) == Some(sc) && TargetOnly(sc)
    requires TargetWrites(sc, req.params, ExpiryFor(req, now)) == StandAll(rs, ExpiryFor(req, now))
    ensures Leaves(env, b, req, now, end, rs)
  {
    hide TargetWrites, TargetOnly, ActivationPlan, TakesWrites, Answers, StandAll;
    RegisteredDispatch(req.id);
    TargetOnlyOk(env, sc, req.targets, req.params, ExpiryFor(req, now), b.state.calls);
    if Activated(env, b, req, now, end).1 == Ok {
      forall t | t in req.targets
        ensures Answers(b.state, Activated(env, b, req, now, end).0.state, env.objects[t], rs, req, now)
      {
        TargetTakes(env, b, req, now, end, t);
        TakesAnswers(b.state, Activated(env, b, req, now, end).0.state, env.objects[t], rs, req, now);
      }
    }
  }
}
