/** Stopping everything that runs and waiting for it to finish. */
module ExecutionShutdown {
  import opened Options
  import opened ConcurrencyControlModel
  import opened ExecutionRuns
  import opened ExecutionSafety

  predicate IsOpen(c: Call) {
    c.phase.Running? || c.phase.Settled?
  }

  /** The active executions are exactly the calls that run or await their cleanup. */
  ghost predicate Tracks(s: System) {
    && (forall id :: id in s.active ==>
          s.active[id] < |s.calls| && s.calls[s.active[id]].id == id && IsOpen(s.calls[s.active[id]]))
    && (forall t :: 0 <= t < |s.calls| && IsOpen(s.calls[t]) ==>
          s.calls[t].id in s.active && s.active[s.calls[t].id] == t)
  }

  /** Inserting under the id of an execution that is still active. */
  ghost predicate Reinserts(s: System, e: Event) {
    e.Insert? && InPhase(s, e.ticket, Granted) && s.calls[e.ticket].id in s.active
  }

  lemma ClosedChangeKeepsTracks(s: System, control: ControlState, t: Option<Ticket>, phase: Phase)
    requires Tracks(s) && (phase.Granted? || phase.Dropped?)
    requires t.Some? ==> t.value < |s.calls| && s.calls[t.value].phase.Waiting?
    ensures Tracks(System(control, Mark(s.calls, t, phase), s.active))
  {
    var s' := System(control, Mark(s.calls, t, phase), s.active);
    forall id | id in s.active
      ensures s.active[id] < |s'.calls| && s'.calls[s.active[id]] == s.calls[s.active[id]]
    {
      assert IsOpen(s.calls[s.active[id]]);
    }
    forall u | 0 <= u < |s'.calls| && IsOpen(s'.calls[u]) ensures s.calls[u] == s'.calls[u] {
    }
  }

  lemma AddKeepsTracks(s: System, id: Id, mode: Mode)
    requires Tracks(s)
    ensures Tracks(Added(s, id, mode))
  {
    var s' := Added(s, id, mode);
    assert forall t :: 0 <= t < |s.calls| ==> s'.calls[t] == s.calls[t];
  }

  lemma CleanUpKeepsTracks(s: System, limits: map<Kind, int>, t: Ticket)
    requires Good(s, limits) && Tracks(s)
    ensures Tracks(CleanedUp(s, t))
  {
    if t < |s.calls| && s.calls[t].phase.Settled? {
      var (control, resolved) := Released(s.control, s.calls[t].mode);
      ResolvedWasWaiting(s, limits, s.calls[t].mode);
      ClosedChangeKeepsTracks(s, control, resolved, Granted);
      var granted := System(control, Mark(s.calls, resolved, Granted), s.active);
      assert granted.calls[t] == s.calls[t];
      CloseKeepsTracks(granted, t);
    }
  }

  lemma CloseKeepsTracks(s: System, t: Ticket)
    requires Tracks(s) && t < |s.calls| && s.calls[t].phase.Settled?
    ensures Tracks(System(s.control, WithPhase(s.calls, t, Done(s.calls[t].phase.outcome)), s.active - {s.calls[t].id}))
  {
    var s' := System(s.control, WithPhase(s.calls, t, Done(s.calls[t].phase.outcome)), s.active - {s.calls[t].id});
    assert IsOpen(s.calls[t]);
    forall u | 0 <= u < |s'.calls| && IsOpen(s'.calls[u])
      ensures s'.calls[u].id in s'.active && s'.active[s'.calls[u].id] == u
    {
      assert s'.calls[u] == s.calls[u] && IsOpen(s.calls[u]);
    }
  }

  lemma InsertTracksExactlyWhen(s: System, t: Ticket)
    requires Tracks(s)
    ensures Tracks(InsertedAt(s, t)) <==> !Reinserts(s, Insert(t))
  {
    var s' := InsertedAt(s, t);
    if InPhase(s, t, Granted) {
      var id := s.calls[t].id;
      assert forall u :: 0 <= u < |s.calls| && u != t ==> s'.calls[u] == s.calls[u];
      if id in s.active {
        var before := s.active[id];
        assert IsOpen(s'.calls[before]) && s'.active[id] == t != before;
      } else {
        forall i | i in s'.active
          ensures s'.active[i] < |s'.calls| && s'.calls[s'.active[i]].id == i && IsOpen(s'.calls[s'.active[i]])
        {
          if i != id {
            assert i in s.active && s.active[i] != t;
          }
        }
      }
    }
  }

  lemma SettleKeepsTracks(s: System, id: Id, outcome: Outcome)
    requires Tracks(s)
    ensures Tracks(SettledAt(s, id, outcome))
  {
    var s' := SettledAt(s, id, outcome);
    assert forall t :: 0 <= t < |s.calls| ==>
      s'.calls[t].id == s.calls[t].id && (IsOpen(s'.calls[t]) <==> IsOpen(s.calls[t]));
  }

  /** The active executions stay tracked through every step but one: the insertion of an id
      that is still active loses the execution inserted before it. */
  lemma TrackedExactlyWhen(s: System, limits: map<Kind, int>, e: Event)
    requires Good(s, limits) && Tracks(s)
    ensures Tracks(Step(s, e)) <==> !Reinserts(s, e)
  {
    match e
    case Add(id, mode) => AddKeepsTracks(s, id, mode);
    case Fail(t) =>
      assert forall u :: 0 <= u < |s.calls| && IsOpen(Step(s, e).calls[u]) ==> Step(s, e).calls[u] == s.calls[u];
    case Insert(t) => InsertTracksExactlyWhen(s, t);
    case Stop(id) => SettleKeepsTracks(s, id, Cancelled);
    case Finalize(id) => SettleKeepsTracks(s, id, Finished);
    case CleanUp(t) => CleanUpKeepsTracks(s, limits, t);
    case Remove(id, mode) =>
      var (control, removed, resolved) := Withdrawn(s.control, mode, id);
      WithdrawnWereWaiting(s, limits, mode, id);
      ClosedChangeKeepsTracks(s, control, removed, Dropped);
      var dropped := System(control, Mark(s.calls, removed, Dropped), s.active);
      ClosedChangeKeepsTracks(dropped, control, resolved, Granted);
    case Disable =>
  }

  ghost predicate AlwaysTracks(s: System, events: seq<Event>)
    decreases |events|
  {
    Tracks(s) && (events != [] ==> AlwaysTracks(Step(s, events[0]), events[1..]))
  }

  ghost predicate NeverReinserts(s: System, events: seq<Event>)
    decreases |events|
  {
    events != [] ==> !Reinserts(s, events[0]) && NeverReinserts(Step(s, events[0]), events[1..])
  }

  lemma {:induction false} TrackedOverRuns(s: System, limits: map<Kind, int>, events: seq<Event>)
    requires Good(s, limits) && Tracks(s)
    ensures AlwaysTracks(s, events) <==> NeverReinserts(s, events)
    ensures NeverReinserts(s, events) ==> Tracks(Run(s, events))
    decreases |events|
  {
    if events == [] {
    } else {
      TrackedExactlyWhen(s, limits, events[0]);
      StepKeepsGood(s, limits, events[0]);
      if Tracks(Step(s, events[0])) {
        TrackedOverRuns(Step(s, events[0]), limits, events[1..]);
      }
    }
  }

  // ---------- stopping ----------

  /** Every listed execution whose promise is pending is cancelled. */
  function StoppedCalls(s: System, ids: set<Id>): seq<Call> {
    seq(|s.calls|, t requires 0 <= t < |s.calls| =>
      if s.calls[t].phase.Running? && (exists id :: id in ids && id in s.active && s.active[id] == t)
      then s.calls[t].(phase := Settled(Cancelled))
      else s.calls[t])
  }

  function Stopped(s: System, ids: set<Id>): System {
    s.(calls := StoppedCalls(s, ids))
  }

  lemma StopOneMore(s: System, ids: set<Id>, id: Id)
    ensures SettledAt(Stopped(s, ids), id, Cancelled) == Stopped(s, ids + {id})
  {
    var a, b := SettledAt(Stopped(s, ids), id, Cancelled), Stopped(s, ids + {id});
    forall t | 0 <= t < |s.calls| ensures a.calls[t] == b.calls[t] {
    }
    assert a.calls == b.calls;
  }

  lemma StopNothing(s: System)
    ensures Stopped(s, {}) == s
  {
    assert StoppedCalls(s, {}) == s.calls;
  }

  /** In the regular mode the control is disabled first; then, if all are to be cancelled,
      everything active is stopped. */
  function ShutdownStart(s: System, regular: bool, cancelAll: bool): System {
    var quiet := if regular then s.(control := s.control.(enabled := false)) else s;
    if cancelAll then Stopped(quiet, s.active.Keys) else quiet
  }

  /** Every active execution has a settled promise. */
  ghost predicate Draining(s: System) {
    && Tracks(s)
    && forall id :: id in s.active ==> s.calls[s.active[id]].phase.Settled?
  }

  lemma CancelAllSettlesEverything(s: System, limits: map<Kind, int>, regular: bool)
    requires Good(s, limits) && Tracks(s)
    ensures var s' := ShutdownStart(s, regular, true);
            Good(s', limits) && Draining(s') && s'.active == s.active
  {
    var quiet := if regular then s.(control := s.control.(enabled := false)) else s;
    StopNothing(quiet);
    StopKeepsGood(quiet, limits, s.active.Keys);
    var s' := ShutdownStart(s, regular, true);
    forall id | id in s.active ensures s'.calls[s.active[id]].phase.Settled? {
      assert id in s.active.Keys && quiet.active[id] == s.active[id];
    }
  }

  lemma {:induction false} StopKeepsGood(s: System, limits: map<Kind, int>, ids: set<Id>)
    requires Good(s, limits)
    ensures Good(Stopped(s, ids), limits)
    decreases ids
  {
    if ids == {} {
      StopNothing(s);
    } else {
      var id :| id in ids;
      StopKeepsGood(s, limits, ids - {id});
      StopOneKeepsGood(s, limits, ids - {id}, id);
      assert ids - {id} + {id} == ids;
    }
  }

  lemma StopOneKeepsGood(s: System, limits: map<Kind, int>, ids: set<Id>, id: Id)
    requires Good(Stopped(s, ids), limits)
    ensures Good(Stopped(s, ids + {id}), limits)
  {
    SettleKeepsGood(Stopped(s, ids), limits, id);
    StopOneMore(s, ids, id);
  }

  lemma SettleKeepsGood(s: System, limits: map<Kind, int>, id: Id)
    requires Good(s, limits)
    ensures Good(SettledAt(s, id, Cancelled), limits)
  {
    StepKeepsGood(s, limits, Stop(id));
    assert Step(s, Stop(id)) == SettledAt(s, id, Cancelled);
  }

  // ---------- draining ----------

  predicate OpenAt(s: System, t: Ticket) {
    t < |s.calls| && IsOpen(s.calls[t])
  }

  predicate InsertsAt(s: System, e: Event, t: Ticket) {
    e == Insert(t) && InPhase(s, t, Granted)
  }

  predicate CleansUpAt(s: System, e: Event, t: Ticket) {
    e == CleanUp(t) && t < |s.calls| && s.calls[t].phase.Settled?
  }

  /** Whether `t` becomes active during the run. */
  ghost predicate Inserts(s: System, events: seq<Event>, t: Ticket)
    decreases |events|
  {
    events != [] && (InsertsAt(s, events[0], t) || Inserts(Step(s, events[0]), events[1..], t))
  }

  lemma OpenStep(s: System, limits: map<Kind, int>, e: Event, t: Ticket)
    requires Good(s, limits)
    ensures OpenAt(Step(s, e), t) <==> (OpenAt(s, t) || InsertsAt(s, e, t)) && !CleansUpAt(s, e, t)
  {
    if t < |s.calls| {
      StepFollowsLifeCycle(s, limits, e, t);
      OpensByInsertion(s, limits, e, t);
    } else if e.CleanUp? && e.ticket < |s.calls| {
      assert |CleanedUp(s, e.ticket).calls| == |s.calls|;
    }
  }

  /** A call that is not open becomes so by its insertion, and by nothing else. */
  lemma OpensByInsertion(s: System, limits: map<Kind, int>, e: Event, t: Ticket)
    requires Good(s, limits) && t < |s.calls| && t < |Step(s, e).calls|
    ensures IsOpen(Step(s, e).calls[t]) && !IsOpen(s.calls[t]) <==> InsertsAt(s, e, t)
  {
    match e
    case CleanUp(u) => CleanUpFollowsLifeCycle(s, limits, u, t);
    case Remove(id, mode) => RemovalOpensNothing(s, limits, id, mode, t);
    case Add(id, mode) => assert Added(s, id, mode).calls[t] == s.calls[t];
    case Insert(u) => assert InsertedAt(s, u).calls[t] == if u == t && InsertsAt(s, e, t)
                                                          then s.calls[t].(phase := Running) else s.calls[t];
    case _ =>
  }

  lemma RemovalOpensNothing(s: System, limits: map<Kind, int>, id: Id, mode: Mode, t: Ticket)
    requires Good(s, limits) && t < |s.calls| && t < |WithdrawnFrom(s, id, mode).calls|
    ensures IsOpen(WithdrawnFrom(s, id, mode).calls[t]) <==> IsOpen(s.calls[t])
  {
    WithdrawnWereWaiting(s, limits, mode, id);
  }

  lemma {:induction false} DoneIsNotInserted(s: System, limits: map<Kind, int>, events: seq<Event>, t: Ticket)
    requires Good(s, limits) && t < |s.calls| && s.calls[t].phase.Done?
    ensures !Inserts(s, events, t)
    decreases |events|
  {
    if events == [] {
    } else {
      StepFollowsLifeCycle(s, limits, events[0], t);
      StepKeepsGood(s, limits, events[0]);
      DoneIsNotInserted(Step(s, events[0]), limits, events[1..], t);
    }
  }

  /** Whatever happens, a call is open after a run if and only if it was so before or was inserted
      during the run, and its cleanup has not run. */
  lemma {:induction false} OpenExactlyWhen(s: System, limits: map<Kind, int>, events: seq<Event>, t: Ticket)
    requires Good(s, limits)
    ensures OpenAt(Run(s, events), t)
       <==> (OpenAt(s, t) || Inserts(s, events, t)) && Releases(s, events, t) == 0
    decreases |events|
  {
    if events == [] {
    } else {
      var e, s' := events[0], Step(s, events[0]);
      StepKeepsGood(s, limits, e);
      OpenStep(s, limits, e, t);
      OpenExactlyWhen(s', limits, events[1..], t);
      if CleansUpAt(s, e, t) {
        StepFollowsLifeCycle(s, limits, e, t);
        DoneIsNotInserted(s', limits, events[1..], t);
      }
    }
  }

  /** A due cleanup takes effect the first time it runs. */
  lemma {:induction false} SettledIsReleased(s: System, limits: map<Kind, int>, events: seq<Event>, t: Ticket)
    requires Good(s, limits) && t < |s.calls| && s.calls[t].phase.Settled?
    ensures Releases(s, events, t) > 0 <==> CleanUp(t) in events
    decreases |events|
  {
    if events == [] {
    } else if events[0] == CleanUp(t) {
    } else {
      StepFollowsLifeCycle(s, limits, events[0], t);
      StepKeepsGood(s, limits, events[0]);
      SettledIsReleased(Step(s, events[0]), limits, events[1..], t);
    }
  }

  ghost predicate IsActive(s: System, t: Ticket) {
    exists id :: id in s.active && s.active[id] == t
  }

  lemma ActiveIsOpen(s: System, t: Ticket)
    requires Tracks(s)
    ensures IsActive(s, t) <==> OpenAt(s, t)
  {
    if OpenAt(s, t) {
      assert s.active[s.calls[t].id] == t;
    }
  }

  /** Once every promise is settled, whatever else happens, an execution that was active is still so
      if and only if its cleanup has not run; any other one that is active was inserted meanwhile
      and has not been cleaned up. */
  lemma DrainsExactlyTheCleanedUp(s: System, limits: map<Kind, int>, events: seq<Event>, t: Ticket)
    requires Good(s, limits) && Draining(s) && NeverReinserts(s, events)
    ensures Good(Run(s, events), limits) && Tracks(Run(s, events))
    ensures IsActive(s, t) ==> (IsActive(Run(s, events), t) <==> CleanUp(t) !in events)
    ensures !IsActive(s, t) ==>
      (IsActive(Run(s, events), t) <==> Inserts(s, events, t) && Releases(s, events, t) == 0)
  {
    RunKeepsGood(s, limits, events);
    TrackedOverRuns(s, limits, events);
    ActiveIsOpen(s, t);
    ActiveIsOpen(Run(s, events), t);
    OpenExactlyWhen(s, limits, events, t);
    if IsActive(s, t) {
      SettledIsReleased(s, limits, events, t);
    }
  }

  lemma {:induction false} RunKeepsGood(s: System, limits: map<Kind, int>, events: seq<Event>)
    requires Good(s, limits)
    ensures Good(Run(s, events), limits)
    decreases |events|
  {
    if events == [] {
    } else {
      StepKeepsGood(s, limits, events[0]);
      RunKeepsGood(Step(s, events[0]), limits, events[1..]);
    }
  }

  /** The drain ends: while something is active, a cleanup is due, and each one leaves
      one execution fewer. */
  lemma DrainProgress(s: System, limits: map<Kind, int>) returns (t: Ticket)
    requires Good(s, limits) && Draining(s) && s.active.Keys != {}
    ensures t < |s.calls| && s.calls[t].phase.Settled?
    ensures |Step(s, CleanUp(t)).active| == |s.active| - 1
  {
    var id :| id in s.active.Keys;
    t := s.active[id];
    var s' := Step(s, CleanUp(t));
    assert s'.active.Keys == s.active.Keys - {id};
    assert |s'.active| == |s'.active.Keys| && |s.active| == |s.active.Keys|;
  }

  // ---------- finishing ----------

  /** Once the promise of an active execution is settled, by finalizing or by stopping it, its cleanup
      is due, ends it, and gives its permit back or hands it to the waiter who called first. */
  lemma SettledThenCleanedUp(s: System, limits: map<Kind, int>, id: Id, outcome: Outcome)
    requires Good(s, limits) && Tracks(s) && id in s.active
    requires s.calls[s.active[id]].phase == Running
    ensures var t := s.active[id];
            var s1 := Step(s, if outcome.Finished? then Finalize(id) else Stop(id));
            var s2 := Step(s1, CleanUp(t));
            && s1.calls[t] == s.calls[t].(phase := Settled(outcome)) && s1.active == s.active
            && id !in s2.active && t < |s2.calls| && s2.calls[t].phase == Done(outcome)
            && forall k :: k in limits ==> GivenBack(s, s2, s.calls[t].mode, k)
  {
    var t := s.active[id];
    var s1 := SettledAt(s, id, outcome);
    SettlingKeepsGood(s, limits, id, outcome);
    CleanUpFollowsLifeCycle(s1, limits, t, t);
    forall k | k in limits ensures GivenBack(s, CleanedUp(s1, t), s.calls[t].mode, k) {
      SettledGivesBack(s, limits, id, outcome, k);
    }
  }

  lemma SettlingKeepsGood(s: System, limits: map<Kind, int>, id: Id, outcome: Outcome)
    requires Good(s, limits)
    ensures Good(SettledAt(s, id, outcome), limits)
  {
    var e := if outcome.Finished? then Finalize(id) else Stop(id);
    StepKeepsGood(s, limits, e);
    assert Step(s, e) == SettledAt(s, id, outcome);
  }

  lemma SettledGivesBack(s: System, limits: map<Kind, int>, id: Id, outcome: Outcome, k: Kind)
    requires Good(s, limits) && k in limits && id in s.active && InPhase(s, s.active[id], Running)
    ensures var t := s.active[id]; GivenBack(s, CleanedUp(SettledAt(s, id, outcome), t), s.calls[t].mode, k)
  {
    var t := s.active[id];
    SettlingKeepsGood(s, limits, id, outcome);
    HeldAfterUpdate(s.calls, t, s.calls[t].(phase := Settled(outcome)), k);
    CleanUpGivesBack(SettledAt(s, id, outcome), limits, t, k);
  }

  /** The permit of an execution of this mode comes back to its kind, and to no other: to the first waiter,
      if there is one. */
  ghost predicate GivenBack(s: System, s': System, mode: Mode, k: Kind)
    requires k in s.control.queues
  {
    k in s'.control.queues
    && var (q, q') := (s.control.queues[k], s'.control.queues[k]);
       if KindOf(mode) != Some(k) then q' == q && Held(s'.calls, k) == Held(s.calls, k)
       else if !s.control.enabled then q' == q && Held(s'.calls, k) == Held(s.calls, k) - 1
       else if q.queue == [] then q' == q.(capacity := q.capacity + 1) && Held(s'.calls, k) == Held(s.calls, k) - 1
       else
         && q' == QueueState(q.capacity + 1, q.queue[1..]) && Held(s'.calls, k) == Held(s.calls, k)
         && q.queue[0].ticket < |s'.calls| && s'.calls[q.queue[0].ticket].phase == Granted
  }

  lemma CleanUpGivesBack(s: System, limits: map<Kind, int>, t: Ticket, k: Kind)
    requires Good(s, limits) && k in limits && t < |s.calls| && s.calls[t].phase.Settled?
    ensures GivenBack(s, CleanedUp(s, t), s.calls[t].mode, k)
  {
    CleanUpSeenBy(s, limits, t, k);
    assert QueueMatches(s.calls, s.control.queues[k].queue, k);
  }

  lemma {:induction false} RunOfConcat(s: System, a: seq<Event>, b: seq<Event>)
    ensures Run(s, a + b) == Run(Run(s, a), b)
    decreases |a|
  {
    if a == [] {
      assert a + b == b;
    } else {
      assert (a + b)[0] == a[0] && (a + b)[1..] == a[1..] + b;
      RunOfConcat(Step(s, a[0]), a[1..], b);
    }
  }

  // ---------- throttled executions ----------

  lemma DisabledStep(s: System, limits: map<Kind, int>, e: Event)
    requires Good(s, limits) && !s.control.enabled
    ensures Step(s, e).control == s.control && |s.calls| <= |Step(s, e).calls|
    ensures forall t :: 0 <= t < |s.calls| && s.calls[t].phase.Waiting? ==> Step(s, e).calls[t] == s.calls[t]
  {
  }

  /** Once the control is disabled, the queues are frozen: whoever waits never resumes. */
  lemma {:induction false} DisabledQueuesAreFrozen(s: System, limits: map<Kind, int>, events: seq<Event>)
    requires Good(s, limits) && !s.control.enabled
    ensures Run(s, events).control == s.control
    ensures |s.calls| <= |Run(s, events).calls|
    ensures forall t :: 0 <= t < |s.calls| && s.calls[t].phase.Waiting? ==>
              Run(s, events).calls[t] == s.calls[t]
    decreases |events|
  {
    if events == [] {
    } else {
      StepKeepsGood(s, limits, events[0]);
      DisabledStep(s, limits, events[0]);
      DisabledQueuesAreFrozen(Step(s, events[0]), limits, events[1..]);
    }
  }
}
