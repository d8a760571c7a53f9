/** The stores that record which workflows are active, in a single main instance, and
    what each operation of the manager does to them.

    A retry is a pending timer; when it fires it awaits an activation, and only the
    return of that activation ends it. */
module ActivationState {
  import opened Options
  import opened Webhooks

  type TimerId = nat

  datatype Mode = Init | Create | Update | Activate | Manual | LeadershipChange

  const INITIAL_TIMEOUT := 1000
  const MAX_TIMEOUT := 24 * 60 * 60 * 1000

  /** A retry of one workflow, with the mode it was queued with. */
  datatype Retry = Retry(workflowId: WorkflowId, mode: Mode)

  datatype Entry = Entry(mode: Mode, lastTimeout: int, timer: TimerId)

  /** What runs: the workflows in memory, each with whether its record holds a running trigger; those
      with cron jobs; and those with a trigger that runs although no record holds it. */
  datatype Running = Running(memory: map<WorkflowId, bool>, crons: set<WorkflowId>, strays: set<WorkflowId>)

  datatype Stores = Stores(
    queue: map<WorkflowId, Entry>,
    timers: map<TimerId, Retry>,
    nextTimer: TimerId,
    inFlight: seq<Retry>,
    errors: map<WorkflowId, string>,
    active: Running,
    rows: Rows)

  // ---------- the queue ----------

  function Dequeued(s: Stores, w: WorkflowId): Stores {
    if w in s.queue then s.(timers := s.timers - {s.queue[w].timer}, queue := s.queue - {w}) else s
  }

  function Enqueued(s: Stores, w: WorkflowId, mode: Mode): Stores {
    var s' := Dequeued(s, w);
    s'.(queue := s'.queue[w := Entry(mode, INITIAL_TIMEOUT, s'.nextTimer)],
        timers := s'.timers[s'.nextTimer := Retry(w, mode)],
        nextTimer := s'.nextTimer + 1)
  }

  function NextTimeout(lastTimeout: int): int {
    if lastTimeout < MAX_TIMEOUT then Min(lastTimeout * 2, MAX_TIMEOUT) else lastTimeout
  }

  function Min(a: int, b: int): int {
    if a < b then a else b
  }

  /** The retry is scheduled again with a longer delay, if its entry is still there to hold it. */
  function Rescheduled(s: Stores, r: Retry): Stores {
    if r.workflowId in s.queue then
      var e := s.queue[r.workflowId];
      s.(queue := s.queue[r.workflowId := e.(lastTimeout := NextTimeout(e.lastTimeout), timer := s.nextTimer)],
         timers := s.timers[s.nextTimer := r],
         nextTimer := s.nextTimer + 1)
    else s
  }

  // ---------- activating one workflow ----------

  /** How starting triggers and pollers ends: whether triggers run and cron jobs are set by then. */
  datatype Triggers =
    | HasNone
    | Started(triggers: bool, crons: bool)
    | TriggerFails(message: string, triggers: bool)
    | PollFails(message: string, triggers: bool, crons: bool)

  /** How the bookkeeping after a successful start ends. */
  datatype Finish =
    | Finished
    | DeregisterFails(message: string)
    | CountFails(message: string)

  /** Everything an activation meets on its way; `rejection` is how the registration of its error
      fails, if it does. */
  datatype Activation = Activation(
    unprepared: Option<string>,
    webhooks: Addition,
    triggers: Triggers,
    finish: Finish,
    rejection: Option<string>)

  ghost predicate IsActivation(a: Activation) {
    IsPlan(a.webhooks)
  }

  /** A single main instance is its own leader. */
  function AddsWebhooks(mode: Mode, isLeader: bool): bool {
    if mode.Init? then true else if mode.LeadershipChange? then false else isLeader
  }

  function MessageOf(e: Error): string {
    match e
    case PathTaken(node) =>
      "The URL path that the \"" + node + "\" node uses is already taken. Please change it to something else."
    case Other(message) => message
  }

  function WebhooksAdded(s: Stores, w: WorkflowId, mode: Mode, a: Activation): (Stores, Option<string>)
    requires IsActivation(a)
  {
    if AddsWebhooks(mode, true) then
      var (rows, error) := AfterAdding(s.rows, w, a.webhooks, mode.Init?);
      (s.(rows := rows), if error.Some? then Some(MessageOf(error.value)) else None)
    else (s, None)
  }

  /** The triggers that the record of a workflow holds. */
  function HoldsTrigger(r: Running, w: WorkflowId): bool {
    w in r.memory && r.memory[w]
  }

  /** A new record replaces the old one, whose triggers go on without it. A trigger that fails leaves
      those before it without a record; a poll that fails deletes the record unless it holds a trigger. */
  function Launched(r: Running, w: WorkflowId, t: Triggers): Running {
    match t
    case HasNone => r
    case TriggerFails(_, triggers) => r.(strays := if triggers then r.strays + {w} else r.strays)
    case Started(triggers, crons) => Replaced(r, w, crons).(memory := r.memory[w := triggers])
    case PollFails(_, triggers, crons) =>
      Replaced(r, w, crons).(memory := if triggers then r.memory[w := true] else r.memory - {w})
  }

  function Replaced(r: Running, w: WorkflowId, crons: bool): Running {
    r.(strays := if HoldsTrigger(r, w) then r.strays + {w} else r.strays,
       crons := if crons then r.crons + {w} else r.crons)
  }

  /** Only what is in memory is closed: its cron jobs first, then its triggers, which may fail. */
  function Closed(r: Running, w: WorkflowId, closes: bool): Running {
    if w !in r.memory then r
    else r.(memory := if closes then r.memory - {w} else r.memory, crons := r.crons - {w})
  }

  function TriggersStarted(s: Stores, w: WorkflowId, t: Triggers): (Stores, Option<string>) {
    (s.(active := Launched(s.active, w, t)), if t.TriggerFails? || t.PollFails? then Some(t.message) else None)
  }

  /** The part that may fail before the queue is cleared. */
  function Attempted(s: Stores, w: WorkflowId, mode: Mode, a: Activation): (Stores, Option<string>)
    requires IsActivation(a)
  {
    if a.unprepared.Some? then (s, a.unprepared)
    else
      var (s1, error1) := WebhooksAdded(s, w, mode, a);
      if error1.Some? then (s1, error1) else TriggersStarted(s1, w, a.triggers)
  }

  function Registered(s: Stores, w: WorkflowId, message: string): Stores {
    s.(errors := s.errors[w := message])
  }

  /** The failure is registered and thrown, unless the registration throws first. */
  function Refused(s: Stores, w: WorkflowId, message: string, rejection: Option<string>): (Stores, Option<string>) {
    if rejection.Some? then (s, rejection) else (Registered(s, w, message), Some(message))
  }

  function Deregistered(s: Stores, w: WorkflowId): Stores {
    s.(errors := s.errors - {w})
  }

  /** The bookkeeping of an activation that started everything. */
  function FinishedWith(s: Stores, w: WorkflowId, finish: Finish, rejection: Option<string>): (Stores, Option<string>) {
    match finish
    case DeregisterFails(m) => Refused(s, w, m, rejection)
    case CountFails(m) => Refused(Deregistered(s, w), w, m, rejection)
    case Finished => (Deregistered(s, w), None)
  }

  /** An activation: the stores and, if it throws, the message. */
  function Activated(s: Stores, w: WorkflowId, mode: Mode, a: Activation): (Stores, Option<string>)
    requires IsActivation(a)
  {
    var (s1, error) := Attempted(s, w, mode, a);
    if error.Some? then Refused(s1, w, error.value, a.rejection)
    else FinishedWith(Dequeued(s1, w), w, a.finish, a.rejection)
  }

  // ---------- deactivating ----------

  /** How a removal goes: whether the webhooks could be cleared, the error deregistered and the
      triggers in memory closed. */
  datatype Ending = Ending(clears: bool, deregisters: bool, closes: bool)

  /** A failure to clear is ignored; one to deregister ends the removal. */
  function Deactivated(s: Stores, w: WorkflowId, ending: Ending): Stores {
    var s1 := s.(rows := Cleared(s.rows, w, ending.clears));
    if !ending.deregisters then s1
    else
      var s2 := Dequeued(Deregistered(s1, w), w);
      s2.(active := Closed(s2.active, w, ending.closes))
  }

  // ---------- events ----------

  datatype Event =
    /** A call from outside activates a workflow. */
    | Add(workflowId: WorkflowId, mode: Mode, activation: Activation)
    /** A stored active workflow is started. */
    | Start(workflowId: WorkflowId, mode: Mode, activation: Activation)
    | Fire(timer: TimerId)
    /** The activation awaited by a retry returns. */
    | Return(index: nat, activation: Activation)
    /** A running trigger reports an error; its workflow may fail to close, and the error to register. */
    | TriggerError(workflowId: WorkflowId, mode: Mode, message: string, closes: bool, registers: bool)
    | Remove(workflowId: WorkflowId, ending: Ending)
    | ClearQueue

  ghost predicate IsEvent(e: Event) {
    (e.Add? || e.Start? || e.Return?) ==> IsActivation(e.activation)
  }

  function QueueCleared(s: Stores): Stores {
    s.(queue := map[], timers := s.timers - (set w | w in s.queue :: s.queue[w].timer))
  }

  function Fired(s: Stores, timer: TimerId): Stores {
    if timer in s.timers
    then s.(timers := s.timers - {timer}, inFlight := s.inFlight + [s.timers[timer]])
    else s
  }

  function Returned(s: Stores, index: nat, a: Activation): Stores
    requires IsActivation(a)
  {
    if index < |s.inFlight| then
      var r := s.inFlight[index];
      var (s1, error) := Activated(s, r.workflowId, r.mode, a);
      var s2 := s1.(inFlight := s.inFlight[..index] + s.inFlight[index + 1..]);
      if error.Some? then Rescheduled(s2, r) else s2
    else s
  }

  predicate OccursAt(text: string, part: string, i: nat) {
    i <= |text| && part <= text[i..]
  }

  function Includes(text: string, part: string): (found: bool)
    ensures found <==> exists i: nat :: OccursAt(text, part, i)
  {
    if OccursAt(text, part, 0) then true
    else if text == [] then false
    else
      assert forall i: nat :: OccursAt(text, part, i) ==> i > 0 && OccursAt(text[1..], part, i - 1);
      assert forall i: nat :: OccursAt(text[1..], part, i) ==> OccursAt(text, part, i + 1);
      Includes(text[1..], part)
  }

  /** An authorization failure on startup is not retried. */
  function StartedUp(s: Stores, w: WorkflowId, mode: Mode, a: Activation): Stores
    requires IsActivation(a)
  {
    var (s1, error) := Activated(s, w, mode, a);
    if error.Some? && !Includes(error.value, "Authorization") then Enqueued(s1, w, Init) else s1
  }

  function TriggerFailed(s: Stores, w: WorkflowId, mode: Mode, message: string, closes: bool, registers: bool): Stores {
    var s1 := s.(active := Closed(s.active, w, closes));
    Enqueued(if registers then Registered(s1, w, message) else s1, w, mode)
  }

  function Step(s: Stores, e: Event): Stores
    requires IsEvent(e)
  {
    match e
    case Add(w, mode, a) => Activated(s, w, mode, a).0
    case Start(w, mode, a) => StartedUp(s, w, mode, a)
    case Fire(timer) => Fired(s, timer)
    case Return(i, a) => Returned(s, i, a)
    case TriggerError(w, mode, m, closes, registers) => TriggerFailed(s, w, mode, m, closes, registers)
    case Remove(w, ending) => Deactivated(s, w, ending)
    case ClearQueue => QueueCleared(s)
  }

  ghost predicate AreEvents(events: seq<Event>) {
    forall i :: 0 <= i < |events| ==> IsEvent(events[i])
  }

  function Run(s: Stores, events: seq<Event>): Stores
    requires AreEvents(events)
    decreases |events|
  {
    if events == [] then s else Run(Step(s, events[0]), events[1..])
  }
}
