/** The manager that activates and deactivates workflows, in a single main instance. */
module ActiveWorkflowManagerModel {
  import opened Options
  import opened Webhooks
  import opened ActivationState
  import opened ActivationRuns
  import opened ActivationStores

  class ActiveWorkflowManager {
    var queuedActivations: map<WorkflowId, Entry>
    /** Pending timers, the next handle, and the retries whose activation has not returned. */
    var timers: map<TimerId, Retry>
    var nextTimer: TimerId
    var inFlight: seq<Retry>
    /** The activation errors and the webhook table. */
    var activationErrors: map<WorkflowId, string>
    var webhookRows: Rows
    /** The records in memory, each with whether it holds a running trigger, and the cron jobs. */
    var activeInMemory: map<WorkflowId, bool>
    var cronJobs: set<WorkflowId>
    /** The workflows with a trigger that runs without a record; nothing reads it. */
    var strayTriggers: set<WorkflowId>

    function State(): Stores
      reads this
    {
      Stores(queuedActivations, timers, nextTimer, inFlight, activationErrors,
             Running(activeInMemory, cronJobs, strayTriggers), webhookRows)
    }

    constructor (rows: Rows)
      ensures State() == Empty(rows)
    {
      queuedActivations, timers, nextTimer, inFlight := map[], map[], 0, [];
      activationErrors, webhookRows := map[], rows;
      activeInMemory, cronJobs, strayTriggers := map[], {}, {};
    }

    /** Stores the webhooks one by one; the first failure that is not ignored clears them. */
    method AddWebhooks(w: WorkflowId, plan: Addition, init: bool) returns (error: Option<Error>)
      requires IsPlan(plan)
      modifies this`webhookRows
      ensures (webhookRows, error) == AfterAdding(old(webhookRows), w, plan, init)
    {
      var hooks, attempts := plan.hooks, plan.attempts;
      if |hooks| == 0 {
        return None;
      }
      ghost var before := webhookRows;
      for i := 0 to |hooks|
        invariant webhookRows == Progress(before, w, plan, i)
        invariant i <= FirstFatal(attempts, init)
      {
        if !attempts[i].StoreFails? {
          webhookRows := Stored(webhookRows, w, hooks[i]);
        }
        if !attempts[i].Works? {
          if init && attempts[i].failure.QueryFailed? {
            continue;
          }
          assert FirstFatal(attempts, init) == i;
          var _ := ClearWebhooks(w, plan.clears);
          return Some(ErrorFor(hooks[i], attempts[i].failure));
        }
      }
      error := if plan.after.Some? then Some(Other(plan.after.value)) else None;
    }

    /** Deregistering from external services comes first; only then are the rows deleted. */
    method ClearWebhooks(w: WorkflowId, succeeds: bool) returns (cleared: bool)
      modifies this`webhookRows
      ensures cleared == succeeds
      ensures webhookRows == Cleared(old(webhookRows), w, succeeds)
      ensures forall k :: k in webhookRows <==>
                k in old(webhookRows) && !(succeeds && old(webhookRows)[k].workflowId == w)
      ensures forall k :: k in webhookRows ==> webhookRows[k] == old(webhookRows)[k]
    {
      if succeeds {
        webhookRows := map k | k in webhookRows && webhookRows[k].workflowId != w :: webhookRows[k];
      }
      return succeeds;
    }

    /** Starts the triggers, replaces the record, then starts the pollers. */
    method AddTriggersAndPollers(w: WorkflowId, t: Triggers) returns (error: Option<string>)
      modifies this`activeInMemory, this`cronJobs, this`strayTriggers
      ensures (State(), error) == TriggersStarted(old(State()), w, t)
      ensures error == if t.TriggerFails? || t.PollFails? then Some(t.message) else None
      ensures t.HasNone? || t.TriggerFails? ==> activeInMemory == old(activeInMemory) && cronJobs == old(cronJobs)
      ensures t.Started? || (t.PollFails? && t.triggers) ==> activeInMemory == old(activeInMemory)[w := t.triggers]
      ensures t.PollFails? && !t.triggers ==> activeInMemory == old(activeInMemory) - {w}
      ensures t.Started? || t.PollFails? ==> cronJobs == if t.crons then old(cronJobs) + {w} else old(cronJobs)
      ensures strayTriggers
           == if (t.TriggerFails? && t.triggers)
                 || ((t.Started? || t.PollFails?) && w in old(activeInMemory) && old(activeInMemory)[w])
              then old(strayTriggers) + {w} else old(strayTriggers)
    {
      error := None;
      if t.HasNone? {
        return;
      }
      if t.TriggerFails? {
        if t.triggers {
          strayTriggers := strayTriggers + {w};
        }
        return Some(t.message);
      }
      if w in activeInMemory && activeInMemory[w] {
        strayTriggers := strayTriggers + {w};
      }
      activeInMemory := activeInMemory[w := t.triggers];
      if t.crons {
        cronJobs := cronJobs + {w};
      }
      if t.PollFails? {
        if !t.triggers {
          activeInMemory := activeInMemory - {w};
          assert activeInMemory == old(activeInMemory) - {w};
        }
        error := Some(t.message);
      }
    }

    /** Closes what is in memory of the workflow: its cron jobs, then its triggers. */
    method RemoveWorkflowTriggersAndPollers(w: WorkflowId, closes: bool) returns (completes: bool)
      modifies this`activeInMemory, this`cronJobs
      ensures State() == old(State()).(active := Closed(old(State()).active, w, closes))
      ensures activeInMemory == if closes then old(activeInMemory) - {w} else old(activeInMemory)
      ensures cronJobs == if w in old(activeInMemory) then old(cronJobs) - {w} else old(cronJobs)
      ensures completes <==> (w in old(activeInMemory) ==> closes)
    {
      if w !in activeInMemory {
        return true;
      }
      cronJobs := cronJobs - {w};
      if closes {
        activeInMemory := activeInMemory - {w};
      }
      return closes;
    }

    /** Activates a workflow; a failure is registered and thrown. */
    method Add(w: WorkflowId, mode: Mode, a: Activation) returns (error: Option<string>)
      requires IsActivation(a)
      modifies this
      ensures (State(), error) == Activated(old(State()), w, mode, a)
    {
      error := a.unprepared;
      if error.None? && AddsWebhooks(mode, true) {
        var webhookError := AddWebhooks(w, a.webhooks, mode.Init?);
        if webhookError.Some? {
          error := Some(MessageOf(webhookError.value));
        }
      }
      if error.None? {
        error := AddTriggersAndPollers(w, a.triggers);
      }
      if error.None? {
        RemoveQueuedWorkflowActivation(w);
        if a.finish.DeregisterFails? {
          error := Some(a.finish.message);
        } else {
          activationErrors := activationErrors - {w};
          if a.finish.CountFails? {
            error := Some(a.finish.message);
          }
        }
      }
      if error.Some? {
        if a.rejection.Some? {
          return a.rejection;
        }
        activationErrors := activationErrors[w := error.value];
      }
    }

    method AddQueuedWorkflowActivation(w: WorkflowId, mode: Mode)
      modifies this`queuedActivations, this`timers, this`nextTimer
      ensures State() == Enqueued(old(State()), w, mode)
      ensures queuedActivations == old(queuedActivations)[w := Entry(mode, 1000, old(nextTimer))]
      ensures nextTimer == old(nextTimer) + 1
      ensures timers == (if w in old(queuedActivations) then old(timers) - {old(queuedActivations)[w].timer}
                         else old(timers))[old(nextTimer) := Retry(w, mode)]
    {
      RemoveQueuedWorkflowActivation(w);
      timers := timers[nextTimer := Retry(w, mode)];
      queuedActivations := queuedActivations[w := Entry(mode, INITIAL_TIMEOUT, nextTimer)];
      nextTimer := nextTimer + 1;
    }

    method RemoveQueuedWorkflowActivation(w: WorkflowId)
      modifies this`queuedActivations, this`timers
      ensures State() == Dequeued(old(State()), w)
      ensures queuedActivations == old(queuedActivations) - {w}
      ensures timers == if w in old(queuedActivations) then old(timers) - {old(queuedActivations)[w].timer}
                        else old(timers)
    {
      if w in queuedActivations {
        timers := timers - {queuedActivations[w].timer};
        queuedActivations := queuedActivations - {w};
      }
    }

    method RemoveAllQueuedWorkflowActivations()
      modifies this`queuedActivations, this`timers
      ensures State() == QueueCleared(old(State()))
      ensures queuedActivations == map[]
      ensures forall t :: t in timers <==>
                t in old(timers) && forall w :: w in old(queuedActivations) ==> old(queuedActivations)[w].timer != t
      ensures forall t :: t in timers ==> timers[t] == old(timers)[t]
    {
      var ids := queuedActivations.Keys;
      while ids != {}
        invariant ids == queuedActivations.Keys
        invariant queuedActivations == old(queuedActivations) - (old(queuedActivations).Keys - ids)
        invariant ids <= old(queuedActivations).Keys
        invariant timers
               == old(timers) - (set w | w in old(queuedActivations) && w !in ids :: old(queuedActivations)[w].timer)
        decreases ids
      {
        var w :| w in ids;
        RemoveQueuedWorkflowActivation(w);
        ids := ids - {w};
      }
    }

    /** A pending timer fires and its retry starts to await the activation. */
    method RetryFires(timer: TimerId)
      modifies this`timers, this`inFlight
      ensures State() == Fired(old(State()), timer)
      ensures timers == old(timers) - {timer}
      ensures inFlight == if timer in old(timers) then old(inFlight) + [old(timers)[timer]] else old(inFlight)
    {
      if timer in timers {
        inFlight := inFlight + [timers[timer]];
        timers := timers - {timer};
      }
    }

    /** The activation a retry awaits returns. A failed retry waits longer before the next,
        if its entry is still there; without the entry it ends. */
    method RetryReturns(index: nat, a: Activation)
      requires IsActivation(a)
      modifies this
      ensures State() == Returned(old(State()), index, a)
      ensures if index < |old(inFlight)| then inFlight == old(inFlight)[..index] + old(inFlight)[index + 1..]
              else State() == old(State())
    {
      if index >= |inFlight| {
        return;
      }
      var r := inFlight[index];
      ActivationAndTheQueue(State(), r.workflowId, r.mode, a);
      var error := Add(r.workflowId, r.mode, a);
      assert inFlight == old(inFlight);
      inFlight := inFlight[..index] + inFlight[index + 1..];
      if error.Some? {
        Reschedule(r);
      }
    }

    method Reschedule(r: Retry)
      modifies this`queuedActivations, this`timers, this`nextTimer
      ensures State() == Rescheduled(old(State()), r)
      ensures r.workflowId in old(queuedActivations) ==>
                var entry := old(queuedActivations)[r.workflowId];
                var delay := if entry.lastTimeout >= 43_200_000 && entry.lastTimeout < 86_400_000 then 86_400_000
                             else if entry.lastTimeout < 86_400_000 then 2 * entry.lastTimeout else entry.lastTimeout;
                && queuedActivations == old(queuedActivations)[r.workflowId := Entry(entry.mode, delay, old(nextTimer))]
                && timers == old(timers)[old(nextTimer) := r] && nextTimer == old(nextTimer) + 1
      ensures r.workflowId !in old(queuedActivations) ==> State() == old(State())
    {
      if r.workflowId in queuedActivations {
        var lastTimeout := queuedActivations[r.workflowId].lastTimeout;
        if lastTimeout < MAX_TIMEOUT {
          lastTimeout := Min(lastTimeout * 2, MAX_TIMEOUT);
        }
        var entry := queuedActivations[r.workflowId].(lastTimeout := lastTimeout, timer := nextTimer);
        queuedActivations := queuedActivations[r.workflowId := entry];
        timers := timers[nextTimer := r];
        nextTimer := nextTimer + 1;
      }
    }

    /** A running trigger reports an error. */
    method EmitError(w: WorkflowId, mode: Mode, message: string, closes: bool, registers: bool)
      modifies this
      ensures State() == TriggerFailed(old(State()), w, mode, message, closes, registers)
      ensures activeInMemory == if closes then old(activeInMemory) - {w} else old(activeInMemory)
      ensures activationErrors == if registers then old(activationErrors)[w := message] else old(activationErrors)
      ensures queuedActivations == old(queuedActivations)[w := Entry(mode, 1000, old(nextTimer))]
      ensures old(nextTimer) in timers && timers[old(nextTimer)] == Retry(w, mode)
    {
      var _ := RemoveWorkflowTriggersAndPollers(w, closes);
      if registers {
        activationErrors := activationErrors[w := message];
      }
      AddQueuedWorkflowActivation(w, mode);
    }

    /** Starts the stored active workflows one after the other. */
    method AddActiveWorkflows(workflows: seq<WorkflowId>, mode: Mode, activations: seq<Activation>)
      requires |activations| == |workflows|
      requires forall i :: 0 <= i < |activations| ==> IsActivation(activations[i])
      modifies this
      ensures State() == Run(old(State()), Starts(workflows, mode, activations))
    {
      ghost var events := Starts(workflows, mode, activations);
      for i := 0 to |workflows|
        invariant AreEvents(events[i..])
        invariant Run(State(), events[i..]) == Run(old(State()), events)
      {
        ghost var before := State();
        var error := Add(workflows[i], mode, activations[i]);
        if error.Some? && !Includes(error.value, "Authorization") {
          AddQueuedWorkflowActivation(workflows[i], Init);
        }
        assert State() == StartedUp(before, workflows[i], mode, activations[i]) == Step(before, events[i]);
        assert events[i..][1..] == events[i + 1..];
      }
    }

    /** Deactivates a workflow; what cannot be cleared stays. */
    method Remove(w: WorkflowId, ending: Ending) returns (completes: bool)
      modifies this
      ensures State() == Deactivated(old(State()), w, ending)
      ensures forall k :: k in webhookRows <==>
                k in old(webhookRows) && !(ending.clears && old(webhookRows)[k].workflowId == w)
      ensures !ending.deregisters ==> State() == old(State()).(rows := webhookRows)
      ensures ending.deregisters ==>
                && activationErrors == old(activationErrors) - {w} && queuedActivations == old(queuedActivations) - {w}
                && activeInMemory == if ending.closes then old(activeInMemory) - {w} else old(activeInMemory)
      ensures completes <==> ending.deregisters && (w in old(activeInMemory) ==> ending.closes)
    {
      var _ := ClearWebhooks(w, ending.clears);
      if !ending.deregisters {
        return false;
      }
      activationErrors := activationErrors - {w};
      if w in queuedActivations {
        RemoveQueuedWorkflowActivation(w);
      }
      completes := RemoveWorkflowTriggersAndPollers(w, ending.closes);
    }

    /** Removes every workflow that is in memory or stored as active, once; each removal ends on
        its own, and the whole completes if all of them do. */
    method RemoveAll(stored: set<WorkflowId>, endings: WorkflowId -> Ending)
      returns (completes: bool, ghost order: seq<WorkflowId>)
      requires WellTimed(State())
      modifies this
      ensures forall w :: w in order <==> w in old(activeInMemory) || w in stored
      ensures forall i, j :: 0 <= i < j < |order| ==> order[i] != order[j]
      ensures State() == AllDeactivated(old(State()), order, endings)
      ensures WellTimed(State())
      ensures forall w :: w in old(activeInMemory) || w in stored ==> RemovedAs(old(State()), State(), w, endings(w))
      ensures completes ==> activeInMemory == map[]
    {
      var ids := activeInMemory.Keys + stored;
      order, completes := [], true;
      while ids != {}
        invariant forall w :: w in order <==> w in old(activeInMemory.Keys) + stored && w !in ids
        invariant forall i, j :: 0 <= i < j < |order| ==> order[i] != order[j]
        invariant State() == AllDeactivated(old(State()), order, endings)
        invariant completes ==> activeInMemory.Keys <= ids
        invariant ids <= old(activeInMemory.Keys) + stored
        decreases ids
      {
        var w :| w in ids;
        var completed := Remove(w, endings(w));
        completes := completes && completed;
        assert (order + [w])[..|order|] == order;
        order, ids := order + [w], ids - {w};
      }
      AllAreRemoved(old(State()), order, endings);
      forall w | w in old(activeInMemory) || w in stored ensures RemovedAs(old(State()), State(), w, endings(w)) {
        assert w in order && RemovedIfAmong(old(State()), State(), order, endings, w);
      }
      assert completes ==> activeInMemory.Keys == {};
    }
  }

  function Starts(workflows: seq<WorkflowId>, mode: Mode, activations: seq<Activation>): (events: seq<Event>)
    requires |activations| == |workflows|
    requires forall i :: 0 <= i < |activations| ==> IsActivation(activations[i])
    ensures AreEvents(events) && |events| == |workflows|
  {
    seq(|workflows|, i requires 0 <= i < |workflows| => Start(workflows[i], mode, activations[i]))
  }
}
