/** How the queue, the activation errors, the triggers in memory and the webhook rows agree. */
module ActivationStores {
  import opened Options
  import opened Webhooks
  import opened ActivationState
  import opened ActivationRuns

  // ---------- a queued workflow has an error ----------

  ghost predicate QueuedHaveErrors(s: Stores) {
    forall w :: w in s.queue ==> w in s.errors
  }

  /** An activation that throws because its error cannot be registered, for a workflow that had
      no error or had it deregistered. */
  ghost predicate LeavesNoError(s: Stores, w: WorkflowId, mode: Mode, a: Activation)
    requires IsActivation(a)
  {
    && a.rejection.Some?
    && (Attempted(s, w, mode, a).1.Some? || !a.finish.Finished?)
    && (w !in s.errors || (Attempted(s, w, mode, a).1.None? && a.finish.CountFails?))
  }

  /** A workflow is queued by a failed startup, or by a trigger error, whose error is not registered. */
  ghost predicate QueuesWithoutError(s: Stores, e: Event)
    requires IsEvent(e)
  {
    match e
    case Start(w, mode, a) => LeavesNoError(s, w, mode, a) && !Includes(a.rejection.value, "Authorization")
    case TriggerError(w, _, _, _, registers) => !registers && w !in s.errors
    case _ => false
  }

  lemma ActivateKeepsErrors(s: Stores, w: WorkflowId, mode: Mode, a: Activation)
    requires QueuedHaveErrors(s) && IsActivation(a)
    ensures var (s', error) := Activated(s, w, mode, a);
            && QueuedHaveErrors(s')
            && (error.Some? ==> (w !in s'.errors <==> LeavesNoError(s, w, mode, a)))
            && (error.Some? && a.rejection.Some? ==> error == a.rejection)
            && (error.None? ==> w !in s'.queue && w !in s'.errors && !LeavesNoError(s, w, mode, a))
  {
    var (s1, error) := Attempted(s, w, mode, a);
    AttemptLeavesTheQueue(s, w, mode, a);
    if error.Some? {
      RefusalKeepsErrors(s1, w, error.value, a.rejection);
    } else {
      FinishKeepsErrors(Dequeued(s1, w), w, a.finish, a.rejection);
    }
  }

  lemma RefusalKeepsErrors(s: Stores, w: WorkflowId, message: string, rejection: Option<string>)
    requires QueuedHaveErrors(s)
    ensures var (s', error) := Refused(s, w, message, rejection);
            && QueuedHaveErrors(s') && error.Some? && (rejection.Some? ==> error == rejection)
            && (w in s'.errors <==> rejection.None? || w in s.errors)
  {
  }

  lemma FinishKeepsErrors(s: Stores, w: WorkflowId, finish: Finish, rejection: Option<string>)
    requires QueuedHaveErrors(s) && w !in s.queue
    ensures var (s', error) := FinishedWith(s, w, finish, rejection);
            && QueuedHaveErrors(s') && s'.queue == s.queue
            && (error.Some? <==> !finish.Finished?) && (error.Some? && rejection.Some? ==> error == rejection)
            && (w in s'.errors <==>
                  !finish.Finished? && (rejection.None? || (finish.DeregisterFails? && w in s.errors)))
  {
  }

  lemma StartKeepsErrorsExactlyWhen(s: Stores, w: WorkflowId, mode: Mode, a: Activation)
    requires QueuedHaveErrors(s) && IsActivation(a)
    ensures QueuedHaveErrors(StartedUp(s, w, mode, a)) <==> !QueuesWithoutError(s, Start(w, mode, a))
  {
    var (s1, error) := Activated(s, w, mode, a);
    ActivateKeepsErrors(s, w, mode, a);
    if error.Some? && !Includes(error.value, "Authorization") {
      EnqueueKeepsErrorsExactlyWhen(s1, w, Init);
    }
  }

  lemma EnqueueKeepsErrorsExactlyWhen(s: Stores, w: WorkflowId, mode: Mode)
    requires QueuedHaveErrors(s) || QueuedHaveErrors(Dequeued(s, w))
    ensures QueuedHaveErrors(Enqueued(s, w, mode)) <==> w in s.errors
  {
    assert w in Enqueued(s, w, mode).queue;
  }

  /** A step leaves a queued workflow without an error if and only if it queues one whose error is
      neither registered already nor accepted now. */
  lemma QueuedHaveErrorsExactlyWhen(s: Stores, e: Event)
    requires QueuedHaveErrors(s) && IsEvent(e)
    ensures QueuedHaveErrors(Step(s, e)) <==> !QueuesWithoutError(s, e)
  {
    match e
    case Add(w, mode, a) => ActivateKeepsErrors(s, w, mode, a);
    case Start(w, mode, a) => StartKeepsErrorsExactlyWhen(s, w, mode, a);
    case Fire(timer) =>
    case Return(i, a) =>
      if i < |s.inFlight| {
        ActivateKeepsErrors(s, s.inFlight[i].workflowId, s.inFlight[i].mode, a);
      }
    case TriggerError(w, mode, m, closes, registers) =>
      EnqueueKeepsErrorsExactlyWhen(if registers then Registered(s, w, m) else s, w, mode);
    case Remove(w, ending) =>
    case ClearQueue =>
  }

  ghost predicate QueuedAlwaysHaveErrors(s: Stores, events: seq<Event>)
    requires AreEvents(events)
    decreases |events|
  {
    QueuedHaveErrors(s) && (events != [] ==> QueuedAlwaysHaveErrors(Step(s, events[0]), events[1..]))
  }

  ghost predicate NeverQueuesWithoutError(s: Stores, events: seq<Event>)
    requires AreEvents(events)
    decreases |events|
  {
    events != [] ==>
      !QueuesWithoutError(s, events[0]) && NeverQueuesWithoutError(Step(s, events[0]), events[1..])
  }

  lemma {:induction false} QueuedHaveErrorsOverRuns(s: Stores, events: seq<Event>)
    requires QueuedHaveErrors(s) && AreEvents(events)
    ensures QueuedAlwaysHaveErrors(s, events) <==> NeverQueuesWithoutError(s, events)
    decreases |events|
  {
    if events == [] {
    } else {
      QueuedHaveErrorsExactlyWhen(s, events[0]);
      if QueuedHaveErrors(Step(s, events[0])) {
        QueuedHaveErrorsOverRuns(Step(s, events[0]), events[1..]);
      }
    }
  }

  /** No registration of an error fails. */
  ghost predicate Registers(e: Event) {
    && (e.Add? || e.Start? || e.Return? ==> e.activation.rejection.None?)
    && (e.TriggerError? ==> e.registers)
  }

  /** As long as errors can be registered, every queued workflow has one, in every reachable state. */
  lemma {:induction false} QueuedHaveErrorsIfTheyRegister(s: Stores, events: seq<Event>)
    requires QueuedHaveErrors(s) && AreEvents(events)
    requires forall i :: 0 <= i < |events| ==> Registers(events[i])
    ensures QueuedAlwaysHaveErrors(s, events)
    decreases |events|
  {
    if events == [] {
    } else {
      assert Registers(events[0]);
      QueuedHaveErrorsExactlyWhen(s, events[0]);
      QueuedHaveErrorsIfTheyRegister(Step(s, events[0]), events[1..]);
    }
  }

  /** A startup that fails while the cache refuses the error: the workflow is queued without one. */
  lemma QueuedWithoutError(rows: Rows, w: WorkflowId, mode: Mode, a: Activation)
    requires IsActivation(a) && a.unprepared.Some? && a.rejection == Some("")
    ensures var s := Step(Empty(rows), Start(w, mode, a));
            w in s.queue && w !in s.errors && IsPending(s, w)
  {
    var text, part := "", "Authorization";
    assert forall i: nat :: !OccursAt(text, part, i);
  }

  // ---------- retries that are lost ----------

  /** The activation throws after its entry was removed from the queue. */
  ghost predicate FailsLate(s: Stores, w: WorkflowId, mode: Mode, a: Activation)
    requires IsActivation(a)
  {
    Attempted(s, w, mode, a).1.None? && !a.finish.Finished?
  }

  /** A retry that fails is scheduled again if and only if its entry was still queued and the
      activation did not fail late; otherwise it leaves no entry, and ends. */
  lemma FailedRetryGoesOnExactlyWhen(s: Stores, i: nat, a: Activation)
    requires IsActivation(a) && i < |s.inFlight|
    requires Activated(s, s.inFlight[i].workflowId, s.inFlight[i].mode, a).1.Some?
    ensures var r := s.inFlight[i];
            && (IsPending(Returned(s, i, a), r.workflowId)
                <==> r.workflowId in s.queue && !FailsLate(s, r.workflowId, r.mode, a))
            && (!IsPending(Returned(s, i, a), r.workflowId) ==> r.workflowId !in Returned(s, i, a).queue)
  {
    var r := s.inFlight[i];
    ActivationAndTheQueue(s, r.workflowId, r.mode, a);
  }

  // ---------- success and removal ----------

  /** The pending timers of every workflow but `w`. */
  function TimersBeside(s: Stores, w: WorkflowId): map<TimerId, Retry> {
    map t | t in s.timers && s.timers[t].workflowId != w :: s.timers[t]
  }

  /** The stores of every workflow but `w` are as they were; rows apart. */
  ghost predicate OthersUntouched(s: Stores, s': Stores, w: WorkflowId) {
    && s'.queue - {w} == s.queue - {w}
    && s'.errors - {w} == s.errors - {w}
    && SameBeside(s'.active, s.active, w)
    && TimersBeside(s', w) == TimersBeside(s, w)
  }

  /** The same runs, but for `w`. */
  ghost predicate SameBeside(a: Running, b: Running, w: WorkflowId) {
    a.memory - {w} == b.memory - {w} && a.crons - {w} == b.crons - {w} && a.strays - {w} == b.strays - {w}
  }

  lemma LaunchLeavesOthers(r: Running, w: WorkflowId, t: Triggers)
    ensures SameBeside(Launched(r, w, t), r, w)
  {
    var r' := Launched(r, w, t);
    assert r'.memory - {w} == r.memory - {w};
    assert r'.crons - {w} == r.crons - {w} && r'.strays - {w} == r.strays - {w};
  }

  lemma CloseLeavesOthers(r: Running, w: WorkflowId, closes: bool)
    ensures SameBeside(Closed(r, w, closes), r, w)
  {
    var r' := Closed(r, w, closes);
    assert r'.memory - {w} == r.memory - {w} && r'.crons - {w} == r.crons - {w};
  }

  lemma DequeueLeavesOthers(s: Stores, w: WorkflowId)
    requires WellTimed(s)
    ensures OthersUntouched(s, Dequeued(s, w), w)
  {
    var s' := Dequeued(s, w);
    assert s'.queue - {w} == s.queue - {w};
    assert TimersBeside(s', w) == TimersBeside(s, w);
  }

  lemma AttemptLeavesOthers(s: Stores, w: WorkflowId, mode: Mode, a: Activation)
    requires IsActivation(a)
    ensures OthersUntouched(s, Attempted(s, w, mode, a).0, w)
  {
    var s' := Attempted(s, w, mode, a).0;
    AttemptLeavesTheQueue(s, w, mode, a);
    LaunchLeavesOthers(s.active, w, a.triggers);
    assert s'.active == s.active || s'.active == Launched(s.active, w, a.triggers);
  }

  lemma FinishLeavesOthers(s: Stores, w: WorkflowId, finish: Finish, rejection: Option<string>)
    ensures OthersUntouched(s, FinishedWith(s, w, finish, rejection).0, w)
  {
    var s' := FinishedWith(s, w, finish, rejection).0;
    FinishLeavesTheQueue(s, w, finish, rejection);
    assert s'.errors - {w} == s.errors - {w};
  }

  lemma RefusalLeavesOthers(s: Stores, w: WorkflowId, message: string, rejection: Option<string>)
    ensures OthersUntouched(s, Refused(s, w, message, rejection).0, w)
  {
    var s' := Refused(s, w, message, rejection).0;
    assert s'.errors - {w} == s.errors - {w};
  }

  /** However an activation ends, it leaves the entries, errors, triggers and timers of the others. */
  lemma ActivationLeavesOthers(s: Stores, w: WorkflowId, mode: Mode, a: Activation)
    requires WellTimed(s) && IsActivation(a)
    ensures OthersUntouched(s, Activated(s, w, mode, a).0, w)
  {
    var (s1, error) := Attempted(s, w, mode, a);
    AttemptLeavesOthers(s, w, mode, a);
    AttemptLeavesTheQueue(s, w, mode, a);
    SameTimers(s, s1);
    if error.Some? {
      RefusalLeavesOthers(s1, w, error.value, a.rejection);
    } else {
      DequeueLeavesOthers(s1, w);
      FinishLeavesOthers(Dequeued(s1, w), w, a.finish, a.rejection);
    }
  }

  /** A successful activation leaves the workflow neither queued nor in error, its triggers in
      memory and its webhooks stored, on initialization but for those the database refused; other
      workflows are untouched, and keep their rows exactly when no webhook key is taken from them. */
  lemma SuccessfulActivation(s: Stores, w: WorkflowId, mode: Mode, a: Activation)
    requires WellTimed(s) && IsActivation(a) && Activated(s, w, mode, a).1.None?
    ensures var s' := Activated(s, w, mode, a).0;
            && w !in s'.queue && w !in s'.errors
            && (a.triggers.Started? ==> w in s'.active.memory)
            && OthersUntouched(s, s', w)
    ensures var (s', stored) := (Activated(s, w, mode, a).0, StoredHooks(mode, a));
            && s'.rows == AllStored(s.rows, w, stored)
            && (OthersKept(s.rows, s'.rows, w) <==> forall h :: h in stored ==> !Takes(s.rows, w, h))
            && (AddsWebhooks(mode, true) && !mode.Init? ==> stored == a.webhooks.hooks)
  {
    ActivationLeavesOthers(s, w, mode, a);
    AttemptLeavesTheQueue(s, w, mode, a);
    SuccessStoresTheHooks(s, w, mode, a);
    OthersKeptExactlyWhen(s.rows, w, StoredHooks(mode, a));
  }

  /** The webhooks that an activation without a fatal failure stores. */
  function StoredHooks(mode: Mode, a: Activation): seq<Webhook>
    requires IsActivation(a)
  {
    if AddsWebhooks(mode, true) then StoredBy(a.webhooks, mode.Init?) else []
  }

  lemma SuccessStoresTheHooks(s: Stores, w: WorkflowId, mode: Mode, a: Activation)
    requires IsActivation(a) && Activated(s, w, mode, a).1.None?
    ensures Activated(s, w, mode, a).0.rows == AllStored(s.rows, w, StoredHooks(mode, a))
    ensures AddsWebhooks(mode, true) && !mode.Init? ==> StoredHooks(mode, a) == a.webhooks.hooks
  {
    ActivationAndTheQueue(s, w, mode, a);
    SuccessAddsWebhooks(s, w, mode, a);
    if AddsWebhooks(mode, true) {
      AddingStoresTheHooks(s.rows, w, a.webhooks, mode.Init?);
    }
  }

  lemma SuccessAddsWebhooks(s: Stores, w: WorkflowId, mode: Mode, a: Activation)
    requires IsActivation(a) && Attempted(s, w, mode, a).1.None?
    ensures WebhooksAdded(s, w, mode, a).1.None?
    ensures Attempted(s, w, mode, a).0.rows == WebhooksAdded(s, w, mode, a).0.rows
  {
    TriggersLeaveTheQueue(WebhooksAdded(s, w, mode, a).0, w, a.triggers);
  }

  lemma AddingStoresTheHooks(rows: Rows, w: WorkflowId, a: Addition, init: bool)
    requires IsPlan(a) && AfterAdding(rows, w, a, init).1.None?
    ensures AfterAdding(rows, w, a, init).0 == AllStored(rows, w, StoredBy(a, init))
    ensures !init ==> StoredBy(a, init) == a.hooks
  {
    AfterAddingStores(rows, w, a, init);
    if !init {
      AllAreStored(a);
    }
  }

  /** What a removal leaves of the workflow: no rows if it clears them; if it can deregister the error,
      neither an error nor an entry, and no timer but one in no entry; and nothing in memory if it
      also closes the triggers. */
  ghost predicate RemovedAs(s: Stores, s': Stores, w: WorkflowId, ending: Ending) {
    && (ending.clears ==> NoRows(s', w))
    && (ending.deregisters ==>
          w !in s'.queue && w !in s'.errors && (NoTimers(s', w) <==> OnlyItsTimer(s, w)))
    && (ending.deregisters && ending.closes ==> w !in s'.active.memory)
  }

  ghost predicate NoTimers(s: Stores, w: WorkflowId) {
    forall t :: t in s.timers ==> s.timers[t].workflowId != w
  }

  ghost predicate NoRows(s: Stores, w: WorkflowId) {
    forall k :: k in s.rows ==> s.rows[k].workflowId != w
  }

  /** Dequeueing clears the timer of the entry, and no other. */
  lemma DequeueLeavesNoTimersExactlyWhen(s: Stores, w: WorkflowId)
    requires WellTimed(s)
    ensures NoTimers(Dequeued(s, w), w) <==> OnlyItsTimer(s, w)
  {
    if t :| t in s.timers && s.timers[t].workflowId == w && !(w in s.queue && s.queue[w].timer == t) {
      assert t in Dequeued(s, w).timers && Dequeued(s, w).timers[t].workflowId == w;
    }
  }

  /** However a removal ends, every other workflow is as it was, rows included; of the workflow
      itself a failure leaves what it had. */
  lemma Removal(s: Stores, w: WorkflowId, ending: Ending)
    requires WellTimed(s)
    ensures var s' := Deactivated(s, w, ending);
            && RemovedAs(s, s', w, ending)
            && (!ending.clears ==> s'.rows == s.rows)
            && (!ending.deregisters ==> s' == s.(rows := s'.rows))
            && (!ending.closes ==> s'.active.memory == s.active.memory)
            && OthersUntouched(s, s', w) && OthersKept(s.rows, s'.rows, w)
  {
    var s' := Deactivated(s, w, ending);
    assert Without(Without(s.rows, w), w) == Without(s.rows, w);
    DequeueLeavesNoTimersExactlyWhen(s, w);
    DequeueLeavesOthers(s, w);
    RemovalAndTheQueue(s, w, ending);
    CloseLeavesOthers(s.active, w, ending.closes);
    assert s'.errors - {w} == s.errors - {w};
  }

  /** Removing several workflows one after the other, each ending as `endings` says. */
  function AllDeactivated(s: Stores, ids: seq<WorkflowId>, endings: WorkflowId -> Ending): Stores {
    if ids == [] then s
    else
      var w := ids[|ids| - 1];
      Deactivated(AllDeactivated(s, ids[..|ids| - 1], endings), w, endings(w))
  }

  /** What the removals have done to one workflow: its own ending if it was among them, and otherwise
      nothing to its timers and its entry. */
  ghost predicate RemovedIfAmong(
    s: Stores, s': Stores, ids: seq<WorkflowId>, endings: WorkflowId -> Ending, w: WorkflowId)
  {
    if w in ids then RemovedAs(s, s', w, endings(w)) else OnlyItsTimer(s', w) <==> OnlyItsTimer(s, w)
  }

  /** After all of them are removed, each is left as its own removal ended. */
  lemma {:induction false} AllAreRemoved(s: Stores, ids: seq<WorkflowId>, endings: WorkflowId -> Ending)
    requires WellTimed(s)
    ensures WellTimed(AllDeactivated(s, ids, endings))
    ensures forall w :: RemovedIfAmong(s, AllDeactivated(s, ids, endings), ids, endings, w)
    decreases |ids|
  {
    if ids == [] {
    } else {
      var n := |ids| - 1;
      var before, v := AllDeactivated(s, ids[..n], endings), ids[n];
      AllAreRemoved(s, ids[..n], endings);
      StepKeepsWellTimed(before, Remove(v, endings(v)));
      forall w ensures RemovedIfAmong(s, AllDeactivated(s, ids, endings), ids, endings, w) {
        assert RemovedIfAmong(s, before, ids[..n], endings, w);
        assert w in ids <==> w in ids[..n] || w == v;
        OneMoreIsRemoved(s, before, ids[..n], endings, v, w);
      }
    }
  }

  lemma OneMoreIsRemoved(
    s: Stores, before: Stores, ids: seq<WorkflowId>, endings: WorkflowId -> Ending, v: WorkflowId, w: WorkflowId)
    requires WellTimed(before) && RemovedIfAmong(s, before, ids, endings, w)
    ensures var after := Deactivated(before, v, endings(v));
            && (w != v ==> RemovedIfAmong(s, after, ids, endings, w))
            && (w == v ==> RemovedAs(s, after, w, endings(w)))
  {
    Removal(before, v, endings(v));
    if w != v {
      RemovalAddsNothing(s, before, v, endings(v), w, endings(w));
    } else if w in ids && endings(v).deregisters {
      assert OnlyItsTimer(before, w) <==> NoTimers(before, w);
    }
  }

  lemma RemovalAddsNothing(
    s: Stores, before: Stores, v: WorkflowId, ending: Ending, w: WorkflowId, ending': Ending)
    requires WellTimed(before) && v != w
    ensures var after := Deactivated(before, v, ending);
            && (RemovedAs(s, before, w, ending') ==> RemovedAs(s, after, w, ending'))
            && (OnlyItsTimer(after, w) <==> OnlyItsTimer(before, w))
  {
    var after := Deactivated(before, v, ending);
    Removal(before, v, ending);
    SameTimersBeside(before, after, v, w);
  }

  lemma SameTimersBeside(s: Stores, s': Stores, v: WorkflowId, w: WorkflowId)
    requires OthersUntouched(s, s', v) && v != w
    ensures NoTimers(s', w) <==> NoTimers(s, w)
    ensures OnlyItsTimer(s', w) <==> OnlyItsTimer(s, w)
    ensures w in s'.queue <==> w in s.queue
    ensures w in s'.queue ==> s'.queue[w] == s.queue[w]
  {
    assert w in s'.queue - {v} <==> w in s'.queue;
    assert w in s.queue - {v} <==> w in s.queue;
    forall t
      ensures (t in s'.timers && s'.timers[t].workflowId == w) <==> (t in s.timers && s.timers[t].workflowId == w)
    {
      assert t in TimersBeside(s', v) <==> t in TimersBeside(s, v);
      assert t in TimersBeside(s', v) ==> TimersBeside(s', v)[t] == TimersBeside(s, v)[t];
    }
  }

  // ---------- removed for good ----------

  ghost predicate NothingOf(s: Stores, w: WorkflowId) {
    w !in s.queue && w !in s.errors && w !in s.active.memory && NoTimers(s, w) && NoRows(s, w)
  }

  /** Nothing of the workflow is left, not even a retry in flight. */
  ghost predicate Gone(s: Stores, w: WorkflowId) {
    NothingOf(s, w) && InFlightFor(s.inFlight, w) == 0
  }

  /** A call from outside that activates the workflow, or one of its triggers that reports an error. */
  predicate Activates(e: Event, w: WorkflowId) {
    (e.Add? || e.Start? || e.TriggerError?) && e.workflowId == w
  }

  lemma {:induction false} InFlightSome(inFlight: seq<Retry>, w: WorkflowId)
    ensures InFlightFor(inFlight, w) > 0 <==> exists i :: 0 <= i < |inFlight| && inFlight[i].workflowId == w
    decreases |inFlight|
  {
    if inFlight == [] {
    } else {
      InFlightSome(inFlight[..|inFlight| - 1], w);
    }
  }

  /** Storing and clearing for one workflow adds no row to another. */
  lemma {:induction false} StoringAddsNoRows(rows: Rows, v: WorkflowId, hooks: seq<Webhook>, w: WorkflowId)
    requires v != w && forall k :: k in rows ==> rows[k].workflowId != w
    ensures forall k :: k in AllStored(rows, v, hooks) ==> AllStored(rows, v, hooks)[k].workflowId != w
    decreases |hooks|
  {
    if hooks == [] {
    } else {
      StoringAddsNoRows(rows, v, hooks[..|hooks| - 1], w);
    }
  }

  lemma AddingAddsNoRows(rows: Rows, v: WorkflowId, a: Addition, init: bool, w: WorkflowId)
    requires IsPlan(a) && v != w && forall k :: k in rows ==> rows[k].workflowId != w
    ensures forall k :: k in AfterAdding(rows, v, a, init).0 ==> AfterAdding(rows, v, a, init).0[k].workflowId != w
  {
    AfterAddingStores(rows, v, a, init);
    StoringAddsNoRows(rows, v, StoredBy(a, init), w);
  }

  lemma ActivationAddsNoRows(s: Stores, v: WorkflowId, mode: Mode, a: Activation, w: WorkflowId)
    requires IsActivation(a) && v != w && NoRows(s, w)
    ensures NoRows(Activated(s, v, mode, a).0, w)
  {
    AddingAddsNoRows(s.rows, v, a.webhooks, mode.Init?, w);
    AttemptRows(s, v, mode, a);
    ActivationAndTheQueue(s, v, mode, a);
  }

  lemma AttemptRows(s: Stores, w: WorkflowId, mode: Mode, a: Activation)
    requires IsActivation(a)
    ensures Attempted(s, w, mode, a).0.rows == s.rows
         || Attempted(s, w, mode, a).0.rows == AfterAdding(s.rows, w, a.webhooks, mode.Init?).0
  {
    TriggersLeaveTheQueue(WebhooksAdded(s, w, mode, a).0, w, a.triggers);
  }

  lemma ActivationKeepsGone(s: Stores, v: WorkflowId, mode: Mode, a: Activation, w: WorkflowId)
    requires WellTimed(s) && IsActivation(a) && v != w && Gone(s, w)
    ensures Gone(Activated(s, v, mode, a).0, w)
  {
    var s' := Activated(s, v, mode, a).0;
    ActivationLeavesOthers(s, v, mode, a);
    ActivationAndTheQueue(s, v, mode, a);
    ActivationAddsNoRows(s, v, mode, a, w);
    assert w !in s.queue - {v} && w !in s.errors - {v} && w !in s.active.memory - {v};
    SameTimersBeside(s, s', v, w);
  }

  lemma ReturnKeepsGone(s: Stores, i: nat, a: Activation, w: WorkflowId)
    requires WellTimed(s) && IsActivation(a) && Gone(s, w)
    ensures Gone(Returned(s, i, a), w)
  {
    if i < |s.inFlight| {
      var r := s.inFlight[i];
      InFlightSome(s.inFlight, w);
      ActivationKeepsGone(s, r.workflowId, r.mode, a, w);
      ActivationAndTheQueue(s, r.workflowId, r.mode, a);
      InFlightWithout(s.inFlight, i, w);
    }
  }

  lemma FireKeepsGone(s: Stores, timer: TimerId, w: WorkflowId)
    requires Gone(s, w)
    ensures Gone(Fired(s, timer), w)
  {
    if timer in s.timers {
      InFlightWith(s.inFlight, s.timers[timer], w);
    }
  }

  lemma EnqueueKeepsGone(s: Stores, v: WorkflowId, mode: Mode, w: WorkflowId)
    requires Gone(s, w) && v != w
    ensures Gone(Enqueued(s, v, mode), w)
  {
  }

  lemma RemoveKeepsGone(s: Stores, v: WorkflowId, ending: Ending, w: WorkflowId)
    requires Gone(s, w)
    ensures Gone(Deactivated(s, v, ending), w)
  {
  }

  lemma StepKeepsGone(s: Stores, e: Event, w: WorkflowId)
    requires WellTimed(s) && IsEvent(e) && Gone(s, w) && !Activates(e, w)
    ensures Gone(Step(s, e), w)
  {
    match e
    case Add(v, mode, a) => ActivationKeepsGone(s, v, mode, a, w);
    case Start(v, mode, a) =>
      ActivationKeepsGone(s, v, mode, a, w);
      EnqueueKeepsGone(Activated(s, v, mode, a).0, v, Init, w);
    case Fire(timer) => FireKeepsGone(s, timer, w);
    case Return(i, a) => ReturnKeepsGone(s, i, a, w);
    case TriggerError(v, mode, m, closes, registers) =>
      var s1 := s.(active := Closed(s.active, v, closes));
      EnqueueKeepsGone(if registers then Registered(s1, v, m) else s1, v, mode, w);
    case Remove(v, ending) => RemoveKeepsGone(s, v, ending, w);
    case ClearQueue =>
  }

  lemma {:induction false} GoneForGood(s: Stores, events: seq<Event>, w: WorkflowId)
    requires WellTimed(s) && Gone(s, w) && AreEvents(events) && NoneActivates(events, w)
    ensures Gone(Run(s, events), w)
    decreases |events|
  {
    if events == [] {
    } else {
      assert !Activates(events[0], w);
      StepKeepsGone(s, events[0], w);
      StepKeepsWellTimed(s, events[0]);
      GoneForGood(Step(s, events[0]), events[1..], w);
    }
  }

  ghost predicate NoneActivates(events: seq<Event>, w: WorkflowId) {
    forall i :: 0 <= i < |events| ==> !Activates(events[i], w)
  }

  const COMPLETELY := Ending(true, true, true)

  /** A retry in flight when its workflow is removed activates it again. */
  lemma RetryReactivates(s: Stores, w: WorkflowId) returns (events: seq<Event>)
    requires InFlightFor(s.inFlight, w) > 0
    ensures AreEvents(events) && NoneActivates(events, w) && w in Run(s, events).active.memory
  {
    InFlightSome(s.inFlight, w);
    var i :| 0 <= i < |s.inFlight| && s.inFlight[i].workflowId == w;
    var a := Activation(None, Addition([], [], true, None), Started(true, false), Finished, None);
    events := [Return(i, a)];
    assert w in Attempted(s, w, s.inFlight[i].mode, a).0.active.memory;
    assert w in Returned(s, i, a).active.memory;
    assert events[1..] == [] && Step(s, events[0]) == Returned(s, i, a);
    assert Run(s, events) == Run(Step(s, events[0]), events[1..]);
  }

  /** So does a timer that no entry holds, once it fires. */
  lemma OrphanReactivates(s: Stores, w: WorkflowId, t: TimerId) returns (events: seq<Event>)
    requires t in s.timers && s.timers[t].workflowId == w
    ensures AreEvents(events) && NoneActivates(events, w) && w in Run(s, events).active.memory
  {
    var fired := Fired(s, t);
    InFlightWith(s.inFlight, s.timers[t], w);
    var rest := RetryReactivates(fired, w);
    events := [Fire(t)] + rest;
    assert events[0] == Fire(t) && events[1..] == rest;
    assert forall i :: 0 < i < |events| ==> events[i] == rest[i - 1];
    assert Run(s, events) == Run(Step(s, events[0]), events[1..]);
  }

  /** A workflow that was removed completely stays so, over every run in which nobody activates it, if
      and only if no retry of it was in flight and no timer of it was pending outside its entry. */
  lemma RemovedForGoodExactlyWhen(s: Stores, w: WorkflowId)
    requires WellTimed(s)
    ensures (forall events :: AreEvents(events) && NoneActivates(events, w) ==>
              NothingOf(Run(Deactivated(s, w, COMPLETELY), events), w))
        <==> InFlightFor(s.inFlight, w) == 0 && OnlyItsTimer(s, w)
  {
    var s' := Deactivated(s, w, COMPLETELY);
    Removal(s, w, COMPLETELY);
    StepKeepsWellTimed(s, Remove(w, COMPLETELY));
    RemovalAndTheQueue(s, w, COMPLETELY);
    if InFlightFor(s.inFlight, w) > 0 {
      var events := RetryReactivates(s', w);
    } else if !OnlyItsTimer(s, w) {
      var t :| t in s'.timers && s'.timers[t].workflowId == w;
      var events := OrphanReactivates(s', w, t);
    } else {
      forall events | AreEvents(events) && NoneActivates(events, w) ensures NothingOf(Run(s', events), w) {
        GoneForGood(s', events, w);
      }
    }
  }

  /** A run after which a timer outlives the removal of its workflow, with nothing in flight: a
      trigger error during a retry, the retry fails, and the workflow is removed. */
  lemma OrphanOutlivesRemoval(w: WorkflowId, failing: Activation)
    requires IsActivation(failing) && failing.unprepared.Some?
    ensures var s := WithOrphan(w, failing);
            && s.inFlight == [] && !OnlyItsTimer(s, w)
            && Deactivated(s, w, COMPLETELY).timers == map[1 := Retry(w, Activate)]
  {
    OrphanedTimer(w, failing);
    var s := WithOrphan(w, failing);
    assert s.timers[1].workflowId == w;
    assert Deactivated(s, w, COMPLETELY).timers == s.timers - {2};
  }
}
