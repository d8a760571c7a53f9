/** The triggers and cron jobs that run, and those that no record in memory holds: a removal
    closes only what is in memory. */
module ActivationTriggers {
  import opened Options
  import opened Webhooks
  import opened ActivationState
  import opened ActivationRuns

  /** A trigger or a cron job of the workflow runs. */
  predicate Runs(r: Running, w: WorkflowId) {
    HoldsTrigger(r, w) || w in r.crons || w in r.strays
  }

  /** One of them runs that a removal does not reach. */
  predicate Unrecorded(r: Running, w: WorkflowId) {
    w in r.strays || (w in r.crons && w !in r.memory)
  }

  /** A removal that completes stops everything of a workflow if and only if nothing of it ran unrecorded. */
  lemma RemovalStopsExactlyWhen(s: Stores, w: WorkflowId, ending: Ending)
    requires ending.deregisters && (w in s.active.memory ==> ending.closes)
    ensures !Runs(Deactivated(s, w, ending).active, w) <==> !Unrecorded(s.active, w)
  {
  }

  // ---------- where something runs unrecorded ----------

  /** Starting the triggers of `w` so: a trigger fails after another one started, a record that holds
      a trigger is replaced, or a poll fails without a trigger to keep the record of a cron job. */
  predicate LosesRecord(r: Running, w: WorkflowId, t: Triggers) {
    match t
    case HasNone => false
    case Started(_, _) => HoldsTrigger(r, w)
    case TriggerFails(_, triggers) => triggers
    case PollFails(_, triggers, crons) => HoldsTrigger(r, w) || (!triggers && (crons || w in r.crons))
  }

  lemma LaunchLosesExactlyWhen(r: Running, w: WorkflowId, t: Triggers)
    requires !Unrecorded(r, w)
    ensures Unrecorded(Launched(r, w, t), w) <==> LosesRecord(r, w, t)
  {
  }

  /** The activation comes to start the triggers. */
  predicate Launches(s: Stores, w: WorkflowId, mode: Mode, a: Activation)
    requires IsActivation(a)
  {
    a.unprepared.None? && WebhooksAdded(s, w, mode, a).1.None?
  }

  predicate ActivationLoses(s: Stores, w: WorkflowId, mode: Mode, a: Activation)
    requires IsActivation(a)
  {
    Launches(s, w, mode, a) && LosesRecord(s.active, w, a.triggers)
  }

  /** An activation starts the triggers or leaves them, however its bookkeeping ends. */
  lemma ActivationLaunches(s: Stores, w: WorkflowId, mode: Mode, a: Activation)
    requires IsActivation(a)
    ensures Activated(s, w, mode, a).0.active
         == if Launches(s, w, mode, a) then Launched(s.active, w, a.triggers) else s.active
  {
    var (s1, error) := Attempted(s, w, mode, a);
    AttemptLaunches(s, w, mode, a);
    if error.Some? {
      RefusalLeavesTheQueue(s1, w, error.value, a.rejection);
    } else {
      FinishLeavesTheQueue(Dequeued(s1, w), w, a.finish, a.rejection);
    }
  }

  lemma AttemptLaunches(s: Stores, w: WorkflowId, mode: Mode, a: Activation)
    requires IsActivation(a)
    ensures Attempted(s, w, mode, a).0.active
         == if Launches(s, w, mode, a) then Launched(s.active, w, a.triggers) else s.active
  {
    WebhooksLeaveTheQueue(s, w, mode, a);
  }

  lemma ActivationLosesExactlyWhen(s: Stores, v: WorkflowId, mode: Mode, a: Activation, w: WorkflowId)
    requires IsActivation(a) && !Unrecorded(s.active, w)
    ensures Unrecorded(Activated(s, v, mode, a).0.active, w) <==> v == w && ActivationLoses(s, w, mode, a)
  {
    ActivationLaunches(s, v, mode, a);
    if v == w {
      LaunchLosesExactlyWhen(s.active, w, a.triggers);
    }
  }

  /** The step activates `w` so. */
  predicate Loses(s: Stores, e: Event, w: WorkflowId)
    requires IsEvent(e)
  {
    match e
    case Add(v, mode, a) => v == w && ActivationLoses(s, w, mode, a)
    case Start(v, mode, a) => v == w && ActivationLoses(s, w, mode, a)
    case Return(i, a) =>
      i < |s.inFlight| && s.inFlight[i].workflowId == w && ActivationLoses(s, w, s.inFlight[i].mode, a)
    case _ => false
  }

  /** A step leaves something of a workflow running unrecorded if and only if it activates it so. */
  lemma UnrecordedExactlyWhen(s: Stores, e: Event, w: WorkflowId)
    requires IsEvent(e) && !Unrecorded(s.active, w)
    ensures Unrecorded(Step(s, e).active, w) <==> Loses(s, e, w)
  {
    match e
    case Add(v, mode, a) => ActivationLosesExactlyWhen(s, v, mode, a, w);
    case Start(v, mode, a) => ActivationLosesExactlyWhen(s, v, mode, a, w);
    case Return(i, a) =>
      if i < |s.inFlight| {
        ActivationLosesExactlyWhen(s, s.inFlight[i].workflowId, s.inFlight[i].mode, a, w);
      }
    case Fire(_) =>
    case TriggerError(_, _, _, _, _) =>
    case Remove(_, _) =>
    case ClearQueue =>
  }

  ghost predicate AlwaysRecorded(s: Stores, events: seq<Event>, w: WorkflowId)
    requires AreEvents(events)
    decreases |events|
  {
    !Unrecorded(s.active, w) && (events != [] ==> AlwaysRecorded(Step(s, events[0]), events[1..], w))
  }

  ghost predicate NeverLoses(s: Stores, events: seq<Event>, w: WorkflowId)
    requires AreEvents(events)
    decreases |events|
  {
    events != [] ==> !Loses(s, events[0], w) && NeverLoses(Step(s, events[0]), events[1..], w)
  }

  /** All along a run a removal can stop whatever runs of a workflow if and only if no step loses it. */
  lemma {:induction false} RecordedOverRuns(s: Stores, events: seq<Event>, w: WorkflowId)
    requires !Unrecorded(s.active, w) && AreEvents(events)
    ensures AlwaysRecorded(s, events, w) <==> NeverLoses(s, events, w)
    decreases |events|
  {
    if events == [] {
    } else {
      UnrecordedExactlyWhen(s, events[0], w);
      if !Unrecorded(Step(s, events[0]).active, w) {
        RecordedOverRuns(Step(s, events[0]), events[1..], w);
      }
    }
  }

  /** A trigger without a record is never stopped. */
  lemma {:induction false} StraysRunOn(s: Stores, events: seq<Event>, w: WorkflowId)
    requires w in s.active.strays && AreEvents(events)
    ensures w in Run(s, events).active.strays
    decreases |events|
  {
    if events == [] {
    } else {
      StrayRunsOn(s, events[0], w);
      StraysRunOn(Step(s, events[0]), events[1..], w);
    }
  }

  lemma StrayRunsOn(s: Stores, e: Event, w: WorkflowId)
    requires w in s.active.strays && IsEvent(e)
    ensures w in Step(s, e).active.strays
  {
    match e
    case Add(v, mode, a) => ActivationKeepsStray(s, v, mode, a, w);
    case Start(v, mode, a) => ActivationKeepsStray(s, v, mode, a, w);
    case Return(i, a) =>
      if i < |s.inFlight| {
        ActivationKeepsStray(s, s.inFlight[i].workflowId, s.inFlight[i].mode, a, w);
      }
    case Fire(_) =>
    case TriggerError(_, _, _, _, _) =>
    case Remove(_, _) =>
    case ClearQueue =>
  }

  lemma ActivationKeepsStray(s: Stores, v: WorkflowId, mode: Mode, a: Activation, w: WorkflowId)
    requires w in s.active.strays && IsActivation(a)
    ensures w in Activated(s, v, mode, a).0.active.strays
  {
    ActivationLaunches(s, v, mode, a);
  }
}
