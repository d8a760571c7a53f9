/** What the activation stores keep over runs of a single main instance. */
module ActivationRuns {
  import opened Options
  import opened Webhooks
  import opened ActivationState

  // ---------- at most one pending retry ----------

  function InFlightFor(inFlight: seq<Retry>, w: WorkflowId): nat {
    if inFlight == [] then 0
    else InFlightFor(inFlight[..|inFlight| - 1], w) + if inFlight[|inFlight| - 1].workflowId == w then 1 else 0
  }

  lemma {:induction false} InFlightWithout(inFlight: seq<Retry>, i: nat, w: WorkflowId)
    requires i < |inFlight|
    ensures InFlightFor(inFlight[..i] + inFlight[i + 1..], w)
         == InFlightFor(inFlight, w) - if inFlight[i].workflowId == w then 1 else 0
    decreases |inFlight|
  {
    var n := |inFlight| - 1;
    var rest := inFlight[..i] + inFlight[i + 1..];
    if i == n {
      assert rest == inFlight[..n];
    } else {
      InFlightWithout(inFlight[..n], i, w);
      assert rest[..|rest| - 1] == inFlight[..n][..i] + inFlight[..n][i + 1..];
    }
  }

  lemma InFlightWith(inFlight: seq<Retry>, r: Retry, w: WorkflowId)
    ensures InFlightFor(inFlight + [r], w) == InFlightFor(inFlight, w) + if r.workflowId == w then 1 else 0
  {
    assert (inFlight + [r])[..|inFlight|] == inFlight;
  }

  ghost predicate IsPending(s: Stores, w: WorkflowId) {
    w in s.queue && s.queue[w].timer in s.timers
  }

  ghost predicate WellTimed(s: Stores) {
    && (forall t :: t in s.timers ==> t < s.nextTimer)
    && (forall w :: w in s.queue ==> s.queue[w].timer < s.nextTimer)
    && (forall w :: w in s.queue && s.queue[w].timer in s.timers ==> s.timers[s.queue[w].timer].workflowId == w)
  }

  /** Every pending timer of `w` is the one in its entry. */
  ghost predicate OnlyItsTimer(s: Stores, w: WorkflowId) {
    forall t :: t in s.timers && s.timers[t].workflowId == w ==> w in s.queue && s.queue[w].timer == t
  }

  /** Every pending timer is the one in the entry of its workflow. */
  ghost predicate TimersInEntries(s: Stores) {
    WellTimed(s) && forall w :: OnlyItsTimer(s, w)
  }

  /** Moreover a queued workflow has exactly one retry, pending or awaiting its activation, and
      any other at most one that still awaits. */
  ghost predicate Scheduled(s: Stores, w: WorkflowId) {
    && OnlyItsTimer(s, w)
    && (IsPending(s, w) ==> InFlightFor(s.inFlight, w) == 0)
    && (w in s.queue && !IsPending(s, w) ==> InFlightFor(s.inFlight, w) == 1)
    && InFlightFor(s.inFlight, w) <= 1
  }

  ghost predicate AllScheduled(s: Stores) {
    WellTimed(s) && forall w :: Scheduled(s, w)
  }

  /** Only the queue, the timers and the retries in flight matter. */
  lemma SameSchedule(s: Stores, s': Stores)
    requires SameQueue(s, s')
    ensures AllScheduled(s) <==> AllScheduled(s')
  {
    forall w ensures Scheduled(s, w) <==> Scheduled(s', w) {
    }
  }

  lemma DequeueKeepsSchedule(s: Stores, w: WorkflowId)
    requires AllScheduled(s)
    ensures AllScheduled(Dequeued(s, w))
    ensures w !in Dequeued(s, w).queue && Dequeued(s, w).inFlight == s.inFlight
    ensures forall t :: t in Dequeued(s, w).timers ==> Dequeued(s, w).timers[t].workflowId != w
  {
    var s' := Dequeued(s, w);
    assert Scheduled(s, w);
    forall v ensures Scheduled(s', v) {
      assert Scheduled(s, v);
      if v != w && v in s.queue && w in s.queue && s.queue[v].timer == s.queue[w].timer {
        assert s.queue[v].timer !in s.timers;
      }
    }
  }

  lemma EnqueueSchedulesExactlyWhen(s: Stores, w: WorkflowId, mode: Mode)
    requires AllScheduled(s)
    ensures AllScheduled(Enqueued(s, w, mode)) <==> InFlightFor(s.inFlight, w) == 0
  {
    var s0, s' := Dequeued(s, w), Enqueued(s, w, mode);
    DequeueKeepsSchedule(s, w);
    assert IsPending(s', w);
    if InFlightFor(s.inFlight, w) == 0 {
      forall v ensures Scheduled(s', v) {
        assert Scheduled(s0, v);
      }
    } else {
      assert !Scheduled(s', w);
    }
  }

  lemma FireKeepsSchedule(s: Stores, timer: TimerId)
    requires AllScheduled(s)
    ensures AllScheduled(Fired(s, timer))
  {
    if timer in s.timers {
      var r, s' := s.timers[timer], Fired(s, timer);
      forall v ensures Scheduled(s', v) {
        InFlightWith(s.inFlight, r, v);
        assert Scheduled(s, v);
        assert Scheduled(s, r.workflowId);
      }
    }
  }

  /** Two states of the stores agree on the queue, the timers and the retries in flight. */
  ghost predicate SameQueue(a: Stores, b: Stores) {
    a.queue == b.queue && a.timers == b.timers && a.nextTimer == b.nextTimer && a.inFlight == b.inFlight
  }

  /** What an activation does to the queue, the timers and the flight: nothing if it fails
      before the bookkeeping, and the removal of the entry otherwise. */
  lemma ActivationAndTheQueue(s: Stores, w: WorkflowId, mode: Mode, a: Activation)
    requires IsActivation(a)
    ensures SameQueue(Activated(s, w, mode, a).0,
                      if Attempted(s, w, mode, a).1.Some? then s else Dequeued(s, w))
    ensures Attempted(s, w, mode, a).1.Some? ==> Activated(s, w, mode, a).1.Some?
    ensures Activated(s, w, mode, a).0.rows == Attempted(s, w, mode, a).0.rows
  {
    var (s1, error) := Attempted(s, w, mode, a);
    AttemptLeavesTheQueue(s, w, mode, a);
    if error.Some? {
      RefusalLeavesTheQueue(s1, w, error.value, a.rejection);
    } else {
      FinishAndTheQueue(s, s1, w);
      FinishLeavesTheQueue(Dequeued(s1, w), w, a.finish, a.rejection);
    }
  }

  lemma RefusalLeavesTheQueue(s: Stores, w: WorkflowId, message: string, rejection: Option<string>)
    ensures var s' := Refused(s, w, message, rejection).0; s' == s.(errors := s'.errors)
  {
  }

  lemma FinishLeavesTheQueue(s: Stores, w: WorkflowId, finish: Finish, rejection: Option<string>)
    ensures var s' := FinishedWith(s, w, finish, rejection).0; s' == s.(errors := s'.errors)
  {
  }

  lemma FinishAndTheQueue(s: Stores, s1: Stores, w: WorkflowId)
    requires SameQueue(s1, s)
    ensures SameQueue(Dequeued(s1, w), Dequeued(s, w))
  {
  }

  lemma AttemptLeavesTheQueue(s: Stores, w: WorkflowId, mode: Mode, a: Activation)
    requires IsActivation(a)
    ensures SameQueue(Attempted(s, w, mode, a).0, s)
    ensures Attempted(s, w, mode, a).0.errors == s.errors
  {
    WebhooksLeaveTheQueue(s, w, mode, a);
    TriggersLeaveTheQueue(WebhooksAdded(s, w, mode, a).0, w, a.triggers);
  }

  lemma WebhooksLeaveTheQueue(s: Stores, w: WorkflowId, mode: Mode, a: Activation)
    requires IsActivation(a)
    ensures var s1 := WebhooksAdded(s, w, mode, a).0; s1 == s.(rows := s1.rows)
  {
  }

  lemma TriggersLeaveTheQueue(s: Stores, w: WorkflowId, t: Triggers)
    ensures var s1 := TriggersStarted(s, w, t).0; s1 == s.(active := s1.active)
  {
  }

  lemma ActivateKeepsSchedule(s: Stores, w: WorkflowId, mode: Mode, a: Activation)
    requires AllScheduled(s) && IsActivation(a)
    ensures AllScheduled(Activated(s, w, mode, a).0)
    ensures Activated(s, w, mode, a).0.inFlight == s.inFlight
  {
    DequeueKeepsSchedule(s, w);
    ActivationAndTheQueue(s, w, mode, a);
    SameSchedule(if Attempted(s, w, mode, a).1.Some? then s else Dequeued(s, w), Activated(s, w, mode, a).0);
  }

  lemma ReturnKeepsSchedule(s: Stores, i: nat, a: Activation)
    requires AllScheduled(s) && IsActivation(a)
    ensures AllScheduled(Returned(s, i, a))
  {
    if i < |s.inFlight| {
      var r := s.inFlight[i];
      var (s1, error) := Activated(s, r.workflowId, r.mode, a);
      ActivateKeepsSchedule(s, r.workflowId, r.mode, a);
      LandKeepsSchedule(s1, i, error.Some?);
    }
  }

  /** A retry leaves the flight; if it failed and its entry is there, it is scheduled again. */
  lemma LandKeepsSchedule(s: Stores, i: nat, failed: bool)
    requires AllScheduled(s) && i < |s.inFlight|
    ensures (failed || s.inFlight[i].workflowId !in s.queue) ==>
              AllScheduled(if failed then Rescheduled(Landed(s, i), s.inFlight[i]) else Landed(s, i))
  {
    if failed {
      RescheduleKeepsSchedule(s, i);
    } else if s.inFlight[i].workflowId !in s.queue {
      forall v ensures Scheduled(Landed(s, i), v) {
        InFlightWithout(s.inFlight, i, v);
        assert Scheduled(s, v);
      }
    }
  }

  function Landed(s: Stores, i: nat): Stores
    requires i < |s.inFlight|
  {
    s.(inFlight := s.inFlight[..i] + s.inFlight[i + 1..])
  }

  lemma RescheduleKeepsSchedule(s: Stores, i: nat)
    requires AllScheduled(s) && i < |s.inFlight|
    ensures AllScheduled(Rescheduled(Landed(s, i), s.inFlight[i]))
  {
    var r := s.inFlight[i];
    var s' := Rescheduled(Landed(s, i), r);
    InFlightWithout(s.inFlight, i, r.workflowId);
    assert Scheduled(s, r.workflowId);
    forall v ensures Scheduled(s', v) {
      InFlightWithout(s.inFlight, i, v);
      assert Scheduled(s, v);
    }
  }

  lemma ClearKeepsSchedule(s: Stores)
    requires AllScheduled(s)
    ensures AllScheduled(QueueCleared(s))
  {
    forall v ensures Scheduled(QueueCleared(s), v) {
      assert Scheduled(s, v);
    }
  }

  // ---------- every pending timer is in its entry ----------

  lemma SameTimers(s: Stores, s': Stores)
    requires SameQueue(s, s')
    ensures TimersInEntries(s) <==> TimersInEntries(s')
    ensures WellTimed(s) <==> WellTimed(s')
  {
    forall w ensures OnlyItsTimer(s, w) <==> OnlyItsTimer(s', w) {
    }
  }

  lemma DequeueKeepsTimers(s: Stores, w: WorkflowId)
    requires TimersInEntries(s)
    ensures TimersInEntries(Dequeued(s, w)) && w !in Dequeued(s, w).queue
    ensures forall t :: t in Dequeued(s, w).timers ==> Dequeued(s, w).timers[t].workflowId != w
  {
    assert OnlyItsTimer(s, w);
    forall v ensures OnlyItsTimer(Dequeued(s, w), v) {
      assert OnlyItsTimer(s, v);
    }
  }

  lemma EnqueueKeepsTimers(s: Stores, w: WorkflowId, mode: Mode)
    requires TimersInEntries(s)
    ensures TimersInEntries(Enqueued(s, w, mode))
  {
    DequeueKeepsTimers(s, w);
    forall v ensures OnlyItsTimer(Enqueued(s, w, mode), v) {
      assert OnlyItsTimer(Dequeued(s, w), v);
    }
  }

  lemma FireKeepsTimers(s: Stores, timer: TimerId)
    requires TimersInEntries(s)
    ensures TimersInEntries(Fired(s, timer))
  {
    forall v ensures OnlyItsTimer(Fired(s, timer), v) {
      assert OnlyItsTimer(s, v);
    }
  }

  lemma ClearKeepsTimers(s: Stores)
    requires TimersInEntries(s)
    ensures TimersInEntries(QueueCleared(s))
  {
    forall v ensures OnlyItsTimer(QueueCleared(s), v) {
      assert OnlyItsTimer(s, v);
    }
  }

  lemma ActivateKeepsTimers(s: Stores, w: WorkflowId, mode: Mode, a: Activation)
    requires TimersInEntries(s) && IsActivation(a)
    ensures TimersInEntries(Activated(s, w, mode, a).0)
  {
    DequeueKeepsTimers(s, w);
    ActivationAndTheQueue(s, w, mode, a);
    SameTimers(if Attempted(s, w, mode, a).1.Some? then s else Dequeued(s, w), Activated(s, w, mode, a).0);
  }

  /** A retry set again beside a pending timer leaves that timer in no entry. */
  lemma RescheduleKeepsTimersExactlyWhen(s: Stores, r: Retry)
    requires TimersInEntries(s)
    ensures TimersInEntries(Rescheduled(s, r)) <==> !IsPending(s, r.workflowId)
  {
    var s' := Rescheduled(s, r);
    if IsPending(s, r.workflowId) {
      assert s.queue[r.workflowId].timer in s'.timers;
      assert !OnlyItsTimer(s', r.workflowId);
    } else {
      forall v ensures OnlyItsTimer(s', v) {
        assert OnlyItsTimer(s, v);
      }
    }
  }

  /** A retry fails early while another one of its workflow is pending. */
  ghost predicate FailsBesideATimer(s: Stores, e: Event)
    requires IsEvent(e)
  {
    && e.Return? && e.index < |s.inFlight|
    && var r := s.inFlight[e.index];
       IsPending(s, r.workflowId) && Attempted(s, r.workflowId, r.mode, e.activation).1.Some?
  }

  lemma ReturnKeepsTimersExactlyWhen(s: Stores, i: nat, a: Activation)
    requires TimersInEntries(s) && IsActivation(a)
    ensures TimersInEntries(Returned(s, i, a)) <==> !FailsBesideATimer(s, Return(i, a))
  {
    if i < |s.inFlight| {
      var r := s.inFlight[i];
      var (s1, error) := Activated(s, r.workflowId, r.mode, a);
      ActivateKeepsTimers(s, r.workflowId, r.mode, a);
      ActivationAndTheQueue(s, r.workflowId, r.mode, a);
      var s2 := s1.(inFlight := s.inFlight[..i] + s.inFlight[i + 1..]);
      assert TimersInEntries(s2) by {
        forall v ensures OnlyItsTimer(s2, v) {
          assert OnlyItsTimer(s1, v);
        }
      }
      if error.Some? {
        RescheduleKeepsTimersExactlyWhen(s2, r);
      }
    }
  }

  /** A step leaves a timer outside the entry of its workflow if and only if a retry fails
      early while another retry of the workflow is pending. */
  lemma TimersInEntriesExactlyWhen(s: Stores, e: Event)
    requires TimersInEntries(s) && IsEvent(e)
    ensures TimersInEntries(Step(s, e)) <==> !FailsBesideATimer(s, e)
  {
    match e
    case Add(w, mode, a) => ActivateKeepsTimers(s, w, mode, a);
    case Start(w, mode, a) =>
      ActivateKeepsTimers(s, w, mode, a);
      EnqueueKeepsTimers(Activated(s, w, mode, a).0, w, Init);
    case Fire(timer) => FireKeepsTimers(s, timer);
    case Return(i, a) => ReturnKeepsTimersExactlyWhen(s, i, a);
    case TriggerError(w, mode, m, closes, registers) =>
      TriggerErrorQueues(s, e);
      EnqueueKeepsTimers(s, w, mode);
      SameTimers(Enqueued(s, w, mode), Step(s, e));
    case Remove(w, ending) => RemoveKeepsTimers(s, w, ending);
    case ClearQueue => ClearKeepsTimers(s);
  }

  lemma RemovalAndTheQueue(s: Stores, w: WorkflowId, ending: Ending)
    ensures SameQueue(Deactivated(s, w, ending), if ending.deregisters then Dequeued(s, w) else s)
  {
  }

  lemma RemoveKeepsTimers(s: Stores, w: WorkflowId, ending: Ending)
    requires TimersInEntries(s)
    ensures TimersInEntries(Deactivated(s, w, ending))
  {
    DequeueKeepsTimers(s, w);
    RemovalAndTheQueue(s, w, ending);
    SameTimers(if ending.deregisters then Dequeued(s, w) else s, Deactivated(s, w, ending));
  }

  lemma TriggerErrorQueues(s: Stores, e: Event)
    requires e.TriggerError?
    ensures SameQueue(Enqueued(s, e.workflowId, e.mode), Step(s, e))
  {
  }

  /** Timers are numbered, and an entry's pending timer is of its own workflow, after any step. */
  lemma StepKeepsWellTimed(s: Stores, e: Event)
    requires WellTimed(s) && IsEvent(e)
    ensures WellTimed(Step(s, e))
  {
    match e
    case Add(w, mode, a) => ActivateKeepsWellTimed(s, w, mode, a);
    case Start(w, mode, a) =>
      ActivateKeepsWellTimed(s, w, mode, a);
      EnqueueKeepsWellTimed(Activated(s, w, mode, a).0, w, Init);
    case Fire(timer) =>
    case Return(i, a) => ReturnKeepsWellTimed(s, i, a);
    case TriggerError(w, mode, m, closes, registers) =>
      TriggerErrorQueues(s, e);
      EnqueueKeepsWellTimed(s, w, mode);
      SameTimers(Enqueued(s, w, mode), Step(s, e));
    case Remove(w, ending) =>
      RemovalAndTheQueue(s, w, ending);
      SameTimers(if ending.deregisters then Dequeued(s, w) else s, Step(s, e));
    case ClearQueue =>
  }

  lemma EnqueueKeepsWellTimed(s: Stores, w: WorkflowId, mode: Mode)
    requires WellTimed(s)
    ensures WellTimed(Enqueued(s, w, mode))
  {
  }

  lemma ReturnKeepsWellTimed(s: Stores, i: nat, a: Activation)
    requires WellTimed(s) && IsActivation(a)
    ensures WellTimed(Returned(s, i, a))
  {
    if i < |s.inFlight| {
      ActivateKeepsWellTimed(s, s.inFlight[i].workflowId, s.inFlight[i].mode, a);
    }
  }

  lemma ActivateKeepsWellTimed(s: Stores, w: WorkflowId, mode: Mode, a: Activation)
    requires WellTimed(s) && IsActivation(a)
    ensures WellTimed(Activated(s, w, mode, a).0)
  {
    ActivationAndTheQueue(s, w, mode, a);
    SameTimers(if Attempted(s, w, mode, a).1.Some? then s else Dequeued(s, w), Activated(s, w, mode, a).0);
  }

  lemma {:induction false} RunKeepsWellTimed(s: Stores, events: seq<Event>)
    requires WellTimed(s) && AreEvents(events)
    ensures WellTimed(Run(s, events))
    decreases |events|
  {
    if events == [] {
    } else {
      StepKeepsWellTimed(s, events[0]);
      RunKeepsWellTimed(Step(s, events[0]), events[1..]);
    }
  }

  ghost predicate TimersAlwaysInEntries(s: Stores, events: seq<Event>)
    requires AreEvents(events)
    decreases |events|
  {
    TimersInEntries(s) && (events != [] ==> TimersAlwaysInEntries(Step(s, events[0]), events[1..]))
  }

  ghost predicate NeverFailsBesideATimer(s: Stores, events: seq<Event>)
    requires AreEvents(events)
    decreases |events|
  {
    events != [] ==>
      !FailsBesideATimer(s, events[0]) && NeverFailsBesideATimer(Step(s, events[0]), events[1..])
  }

  /** All along a run every pending timer is the one in its entry, so that no workflow has two, if
      and only if no retry fails early beside a pending one. */
  lemma {:induction false} TimersInEntriesOverRuns(s: Stores, events: seq<Event>)
    requires TimersInEntries(s) && AreEvents(events)
    ensures TimersAlwaysInEntries(s, events) <==> NeverFailsBesideATimer(s, events)
    decreases |events|
  {
    if events == [] {
    } else {
      TimersInEntriesExactlyWhen(s, events[0]);
      if TimersInEntries(Step(s, events[0])) {
        TimersInEntriesOverRuns(Step(s, events[0]), events[1..]);
      }
    }
  }

  lemma TimersInEntriesFromTheStart(rows: Rows, events: seq<Event>)
    requires AreEvents(events)
    ensures TimersAlwaysInEntries(Empty(rows), events) <==> NeverFailsBesideATimer(Empty(rows), events)
  {
    TimersInEntriesOverRuns(Empty(rows), events);
  }

  // ---------- one retry for each queued workflow ----------

  /** Queueing a workflow while one of its retries awaits its activation. */
  ghost predicate EnqueuesInFlight(s: Stores, e: Event)
    requires IsEvent(e)
  {
    match e
    case Start(w, mode, a) =>
      var error := Activated(s, w, mode, a).1;
      error.Some? && !Includes(error.value, "Authorization") && InFlightFor(s.inFlight, w) > 0
    case TriggerError(w, _, _, _, _) => InFlightFor(s.inFlight, w) > 0
    case _ => false
  }

  /** A step gives a queued workflow a second retry if and only if it queues a workflow whose
      retry is still in flight. */
  lemma ScheduledExactlyWhen(s: Stores, e: Event)
    requires AllScheduled(s) && IsEvent(e)
    ensures AllScheduled(Step(s, e)) <==> !EnqueuesInFlight(s, e)
  {
    match e
    case Add(w, mode, a) => ActivateKeepsSchedule(s, w, mode, a);
    case Start(w, mode, a) => StartKeepsScheduleExactlyWhen(s, w, mode, a);
    case Fire(timer) => FireKeepsSchedule(s, timer);
    case Return(i, a) => ReturnKeepsSchedule(s, i, a);
    case TriggerError(w, mode, m, closes, registers) =>
      TriggerErrorQueues(s, e);
      EnqueueSchedulesExactlyWhen(s, w, mode);
      SameSchedule(Enqueued(s, w, mode), Step(s, e));
    case Remove(w, ending) => RemoveKeepsSchedule(s, w, ending);
    case ClearQueue => ClearKeepsSchedule(s);
  }

  lemma StartKeepsScheduleExactlyWhen(s: Stores, w: WorkflowId, mode: Mode, a: Activation)
    requires AllScheduled(s) && IsActivation(a)
    ensures AllScheduled(StartedUp(s, w, mode, a)) <==> !EnqueuesInFlight(s, Start(w, mode, a))
  {
    ActivateKeepsSchedule(s, w, mode, a);
    EnqueueSchedulesExactlyWhen(Activated(s, w, mode, a).0, w, Init);
  }

  lemma RemoveKeepsSchedule(s: Stores, w: WorkflowId, ending: Ending)
    requires AllScheduled(s)
    ensures AllScheduled(Deactivated(s, w, ending))
  {
    DequeueKeepsSchedule(s, w);
    RemovalAndTheQueue(s, w, ending);
    SameSchedule(if ending.deregisters then Dequeued(s, w) else s, Deactivated(s, w, ending));
  }

  ghost predicate AlwaysScheduled(s: Stores, events: seq<Event>)
    requires AreEvents(events)
    decreases |events|
  {
    AllScheduled(s) && (events != [] ==> AlwaysScheduled(Step(s, events[0]), events[1..]))
  }

  ghost predicate NeverEnqueuesInFlight(s: Stores, events: seq<Event>)
    requires AreEvents(events)
    decreases |events|
  {
    events != [] ==>
      !EnqueuesInFlight(s, events[0]) && NeverEnqueuesInFlight(Step(s, events[0]), events[1..])
  }

  function Empty(rows: Rows): Stores {
    Stores(map[], map[], 0, [], map[], Running(map[], {}, {}), rows)
  }

  /** All along a run each queued workflow has exactly one retry, pending or in flight, if and
      only if nothing queues a workflow whose retry is in flight. */
  lemma {:induction false} ScheduledOverRuns(s: Stores, events: seq<Event>)
    requires AllScheduled(s) && AreEvents(events)
    ensures AlwaysScheduled(s, events) <==> NeverEnqueuesInFlight(s, events)
    decreases |events|
  {
    if events == [] {
    } else {
      ScheduledExactlyWhen(s, events[0]);
      if AllScheduled(Step(s, events[0])) {
        ScheduledOverRuns(Step(s, events[0]), events[1..]);
      }
    }
  }

  lemma ScheduledFromTheStart(rows: Rows, events: seq<Event>)
    requires AreEvents(events)
    ensures AlwaysScheduled(Empty(rows), events) <==> NeverEnqueuesInFlight(Empty(rows), events)
  {
    ScheduledOverRuns(Empty(rows), events);
  }

  /** A trigger error during a retry, which then fails. */
  function WithOrphan(w: WorkflowId, failing: Activation): Stores
    requires IsActivation(failing)
  {
    var s1 := Step(Empty(map[]), TriggerError(w, Activate, "down", true, true));
    var s2 := Step(s1, Fire(0));
    var s3 := Step(s2, TriggerError(w, Activate, "down", true, true));
    Step(s3, Return(0, failing))
  }

  /** Two timers are pending for one workflow then, and its entry holds only the later one. */
  lemma OrphanedTimer(w: WorkflowId, failing: Activation)
    requires IsActivation(failing) && failing.unprepared.Some?
    ensures var s := WithOrphan(w, failing);
            && s.timers == map[1 := Retry(w, Activate), 2 := Retry(w, Activate)]
            && w in s.queue && s.queue[w].timer == 2 && s.inFlight == []
  {
  }

  // ---------- backoff ----------

  function Pow2(n: nat): nat {
    if n == 0 then 1 else 2 * Pow2(n - 1)
  }

  /** The delay stored after `n` consecutive failed retries. */
  function Delay(n: nat): int {
    if n == 0 then INITIAL_TIMEOUT else NextTimeout(Delay(n - 1))
  }

  lemma {:induction false} DelayDoublesUpToTheCap(n: nat)
    ensures Delay(n) == Min(INITIAL_TIMEOUT * Pow2(n), MAX_TIMEOUT)
    ensures INITIAL_TIMEOUT <= Delay(n) <= MAX_TIMEOUT && Delay(n) <= Delay(n + 1)
  {
    if n == 0 {
    } else {
      DelayDoublesUpToTheCap(n - 1);
    }
  }

  lemma {:induction false} DelayReachesTheCap(n: nat)
    ensures Delay(n) == 86_400_000 <==> n >= 17
    ensures Delay(0) == 1000
  {
    assert Pow2(16) == 65536 by {
      assert Pow2(4) == 16 && Pow2(8) == 256 && Pow2(12) == 4096;
    }
    DelayDoublesUpToTheCap(n);
    if n >= 17 {
      Pow2Monotone(17, n);
    } else {
      Pow2Monotone(n, 16);
    }
  }

  lemma {:induction false} Pow2Monotone(m: nat, n: nat)
    requires m <= n
    ensures Pow2(m) <= Pow2(n)
    decreases n
  {
    if m < n {
      Pow2Monotone(m, n - 1);
    }
  }

  /** The failed retries since the workflow was last queued, `n` before the step. */
  function FailuresAfter(s: Stores, e: Event, w: WorkflowId, n: nat): nat
    requires IsEvent(e)
  {
    match e
    case Start(v, mode, a) =>
      var error := Activated(s, v, mode, a).1;
      if v == w && error.Some? && !Includes(error.value, "Authorization") then 0 else n
    case TriggerError(v, _, _, _, _) => if v == w then 0 else n
    case Return(i, a) =>
      if i < |s.inFlight| && s.inFlight[i].workflowId == w && Activated(s, w, s.inFlight[i].mode, a).1.Some?
      then n + 1 else n
    case _ => n
  }

  function Failures(s: Stores, events: seq<Event>, w: WorkflowId, n: nat): nat
    requires AreEvents(events)
    decreases |events|
  {
    if events == [] then n else Failures(Step(s, events[0]), events[1..], w, FailuresAfter(s, events[0], w, n))
  }

  /** The delay stored for the workflow, if it is queued, is that after `n` failures. */
  ghost predicate DelayedBy(s: Stores, w: WorkflowId, n: nat) {
    w in s.queue ==> s.queue[w].lastTimeout == Delay(n)
  }

  lemma ActivationKeepsDelay(s: Stores, v: WorkflowId, mode: Mode, a: Activation, w: WorkflowId, n: nat)
    requires DelayedBy(s, w, n) && IsActivation(a)
    ensures DelayedBy(Activated(s, v, mode, a).0, w, n)
  {
    ActivationAndTheQueue(s, v, mode, a);
  }

  lemma StartBacksOff(s: Stores, v: WorkflowId, mode: Mode, a: Activation, w: WorkflowId, n: nat)
    requires DelayedBy(s, w, n) && IsActivation(a)
    ensures DelayedBy(StartedUp(s, v, mode, a), w, FailuresAfter(s, Start(v, mode, a), w, n))
  {
    ActivationKeepsDelay(s, v, mode, a, w, n);
  }

  lemma ReturnBacksOff(s: Stores, i: nat, a: Activation, w: WorkflowId, n: nat)
    requires DelayedBy(s, w, n) && IsActivation(a)
    ensures DelayedBy(Returned(s, i, a), w, FailuresAfter(s, Return(i, a), w, n))
  {
    if i < |s.inFlight| {
      var r := s.inFlight[i];
      var (s1, error) := Activated(s, r.workflowId, r.mode, a);
      ActivationKeepsDelay(s, r.workflowId, r.mode, a, w, n);
      if error.Some? {
        RescheduleBacksOff(s1.(inFlight := s.inFlight[..i] + s.inFlight[i + 1..]), r, w, n);
      }
    }
  }

  lemma RescheduleBacksOff(s: Stores, r: Retry, w: WorkflowId, n: nat)
    requires DelayedBy(s, w, n)
    ensures DelayedBy(Rescheduled(s, r), w, if r.workflowId == w then n + 1 else n)
  {
  }

  lemma StepBacksOff(s: Stores, e: Event, w: WorkflowId, n: nat)
    requires DelayedBy(s, w, n) && IsEvent(e)
    ensures DelayedBy(Step(s, e), w, FailuresAfter(s, e, w, n))
  {
    match e
    case Add(v, mode, a) => ActivationKeepsDelay(s, v, mode, a, w, n);
    case Start(v, mode, a) => StartBacksOff(s, v, mode, a, w, n);
    case Return(i, a) => ReturnBacksOff(s, i, a, w, n);
    case TriggerError(v, mode, m, closes, registers) => TriggerErrorQueues(s, e);
    case Remove(v, ending) => RemovalAndTheQueue(s, v, ending);
    case Fire(_) =>
    case ClearQueue =>
  }

  /** Whatever else happens in a run, retries of other workflows and of this one included: as long as
      a workflow is queued, its stored delay is the capped doubling of the initial one by the retries
      that failed since it was queued. */
  lemma {:induction false} FailedRetriesBackOff(s: Stores, events: seq<Event>, w: WorkflowId, n: nat)
    requires DelayedBy(s, w, n) && AreEvents(events)
    ensures var s', failures := Run(s, events), Failures(s, events, w, n);
            && DelayedBy(s', w, failures)
            && (w in s'.queue ==> s'.queue[w].lastTimeout == Min(INITIAL_TIMEOUT * Pow2(failures), MAX_TIMEOUT))
    decreases |events|
  {
    if events == [] {
      DelayDoublesUpToTheCap(n);
    } else {
      StepBacksOff(s, events[0], w, n);
      FailedRetriesBackOff(Step(s, events[0]), events[1..], w, FailuresAfter(s, events[0], w, n));
    }
  }

  lemma FailedRetriesBackOffFromTheStart(rows: Rows, events: seq<Event>, w: WorkflowId)
    requires AreEvents(events)
    ensures var s', failures := Run(Empty(rows), events), Failures(Empty(rows), events, w, 0);
            w in s'.queue ==> s'.queue[w].lastTimeout == Min(INITIAL_TIMEOUT * Pow2(failures), MAX_TIMEOUT)
  {
    FailedRetriesBackOff(Empty(rows), events, w, 0);
  }
}
