/** How an activation ends, by its mode and by what it meets: when it throws and with which message,
    which webhooks have their rows after it, and whether a startup is tried again. */
module ActivationOutcomes {
  import opened Options
  import opened Webhooks
  import opened ActivationState
  import opened ActivationRuns
  import opened ActivationStores

  // ---------- webhooks ----------

  /** The webhook works, or the database refuses it on initialization. */
  predicate IsAccepted(a: Attempt, init: bool) {
    match a
    case Works => true
    case StoreFails(failure) => init && failure == QueryFailed
    case SetupFails(failure) => init && failure == QueryFailed
  }

  /** A taken path is reported as such; another failure by its detail, if there is one. */
  function FailureMessage(h: Webhook, a: Attempt): string {
    match a
    case Works => ""
    case StoreFails(Thrown(message, detail)) => if detail == "" then message else detail
    case SetupFails(Thrown(message, detail)) => if detail == "" then message else detail
    case StoreFails(QueryFailed) => TakenPath(h)
    case SetupFails(QueryFailed) => TakenPath(h)
  }

  function TakenPath(h: Webhook): string {
    "The URL path that the \"" + h.node + "\" node uses is already taken. Please change it to something else."
  }

  /** Every webhook is accepted, and filling the cache, done for one webhook or more, works. */
  predicate WebhooksGoWell(a: Addition, init: bool)
    requires |a.hooks| == |a.attempts|
  {
    && (forall i :: 0 <= i < |a.attempts| ==> IsAccepted(a.attempts[i], init))
    && (a.hooks == [] || a.after == None)
  }

  ghost predicate IsFirstNotAccepted(a: Addition, init: bool, i: nat)
    requires i < |a.attempts|
  {
    !IsAccepted(a.attempts[i], init) && forall j :: 0 <= j < i ==> IsAccepted(a.attempts[j], init)
  }

  /** Adding webhooks fails exactly if one is not accepted or the cache is not filled; the first one not
      accepted gives the message. */
  lemma AdditionFailsExactlyWhen(rows: Rows, w: WorkflowId, a: Addition, init: bool)
    requires IsPlan(a)
    ensures AfterAdding(rows, w, a, init).1.None? <==> WebhooksGoWell(a, init)
    ensures forall i | 0 <= i < |a.attempts| && IsFirstNotAccepted(a, init, i) ::
              var error := AfterAdding(rows, w, a, init).1;
              error.Some? && MessageOf(error.value) == FailureMessage(a.hooks[i], a.attempts[i])
    ensures a.hooks != [] && a.after.Some?
            && (forall i :: 0 <= i < |a.attempts| ==> IsAccepted(a.attempts[i], init)) ==>
              AfterAdding(rows, w, a, init).1 == Some(Other(a.after.value))
  {
    forall i | 0 <= i < |a.attempts| ensures IsFatal(a.attempts[i], init) <==> !IsAccepted(a.attempts[i], init) {
    }
  }

  /** A webhook has its row: under its HTTP method and its path with at most one slash less at each end. */
  ghost predicate HasRow(rows: Rows, w: WorkflowId, h: Webhook) {
    exists path :: IsTrimmed(h.path, path) && (h.verb, path) in rows && rows[(h.verb, path)].workflowId == w
  }

  /** `path` is `full` without one leading slash and then without one trailing one, where there are. */
  ghost predicate IsTrimmed(full: string, path: string) {
    exists before, after :: before in {"", "/"} && after in {"", "/"} && full == before + path + after
      && (before == "" ==> !(full != "" && full[0] == '/'))
      && (after == "" ==> !(full[|before|..] != "" && full[|full| - 1] == '/'))
  }

  lemma KeyIsTrimmed(rows: Rows, w: WorkflowId, h: Webhook)
    requires KeyOf(h) in rows && rows[KeyOf(h)].workflowId == w
    ensures HasRow(rows, w, h)
  {
    NormalPathInContext(h.path);
    assert IsTrimmed(h.path, NormalPath(h.path));
  }

  /** What an activation without an error registers. Created, updated, activated or run by hand, all its
      webhooks; on initialization all that the database did not refuse; on a change of leadership none. */
  lemma SuccessRegisters(s: Stores, w: WorkflowId, mode: Mode, a: Activation)
    requires IsActivation(a) && Activated(s, w, mode, a).1.None?
    ensures var (rows, plan) := (Activated(s, w, mode, a).0.rows, a.webhooks);
            match mode
            case Create => forall h :: h in plan.hooks ==> HasRow(rows, w, h)
            case Update => forall h :: h in plan.hooks ==> HasRow(rows, w, h)
            case Activate => forall h :: h in plan.hooks ==> HasRow(rows, w, h)
            case Manual => forall h :: h in plan.hooks ==> HasRow(rows, w, h)
            case Init => forall i :: 0 <= i < |plan.hooks| && !plan.attempts[i].StoreFails? ==>
                           HasRow(rows, w, plan.hooks[i])
            case LeadershipChange => rows == s.rows
  {
    SuccessStoresTheHooks(s, w, mode, a);
    if !mode.LeadershipChange? {
      SuccessAddsWebhooks(s, w, mode, a);
      AddingStoresTheHooks(s.rows, w, a.webhooks, mode.Init?);
      forall i | 0 <= i < |a.webhooks.hooks| && (!mode.Init? || !a.webhooks.attempts[i].StoreFails?)
        ensures HasRow(Activated(s, w, mode, a).0.rows, w, a.webhooks.hooks[i])
      {
        SuccessStoresOne(s, w, mode, a, i);
      }
    }
  }

  lemma SuccessStoresOne(s: Stores, w: WorkflowId, mode: Mode, a: Activation, i: nat)
    requires IsActivation(a) && Activated(s, w, mode, a).1.None? && !mode.LeadershipChange?
    requires i < |a.webhooks.hooks| && (!mode.Init? || !a.webhooks.attempts[i].StoreFails?)
    ensures HasRow(Activated(s, w, mode, a).0.rows, w, a.webhooks.hooks[i])
  {
    var (plan, stored) := (a.webhooks, StoredBy(a.webhooks, mode.Init?));
    SuccessStoresTheHooks(s, w, mode, a);
    SuccessAddsWebhooks(s, w, mode, a);
    AddingStoresTheHooks(s.rows, w, plan, mode.Init?);
    if mode.Init? {
      AdditionFailsExactlyWhen(s.rows, w, plan, true);
      ReachedHas(plan, |plan.hooks|, i);
    }
    assert plan.hooks[i] in stored;
    var j :| 0 <= j < |stored| && stored[j] == plan.hooks[i];
    StoredHasItsRow(s.rows, w, stored, j);
    KeyIsTrimmed(Activated(s, w, mode, a).0.rows, w, plan.hooks[i]);
  }

  lemma {:induction false} ReachedHas(a: Addition, n: nat, i: nat)
    requires IsPlan(a) && i < n <= |a.hooks| && !a.attempts[i].StoreFails?
    ensures a.hooks[i] in Reached(a, n)
  {
    if i == n - 1 {
    } else {
      ReachedHas(a, n - 1, i);
    }
  }

  // ---------- errors ----------

  /** An activation without an error: it was prepared, its webhooks went well unless the mode is a change of
      leadership, which adds none, and its triggers, pollers and bookkeeping worked. */
  lemma SucceedsExactlyWhen(s: Stores, w: WorkflowId, mode: Mode, a: Activation)
    requires IsActivation(a)
    ensures Activated(s, w, mode, a).1.None? <==>
              && a.unprepared == None
              && (mode != LeadershipChange ==> WebhooksGoWell(a.webhooks, mode == Init))
              && !a.triggers.TriggerFails? && !a.triggers.PollFails?
              && a.finish == Finished
  {
    AdditionFailsExactlyWhen(s.rows, w, a.webhooks, mode == Init);
  }

  /** The first thing that failed. */
  ghost function FirstFailure(rows: Rows, w: WorkflowId, mode: Mode, a: Activation): string
    requires IsActivation(a)
  {
    if a.unprepared.Some? then a.unprepared.value
    else if mode != LeadershipChange && !WebhooksGoWell(a.webhooks, mode == Init) then
      AdditionFailsExactlyWhen(rows, w, a.webhooks, mode == Init);
      MessageOf(AfterAdding(rows, w, a.webhooks, mode == Init).1.value)
    else if a.triggers.TriggerFails? || a.triggers.PollFails? then a.triggers.message
    else if a.finish == Finished then ""
    else a.finish.message
  }

  /** An activation that fails throws the first thing that failed, unless that cannot be registered; and
      what is thrown and could be registered is the activation error. */
  lemma ThrowsTheFirst(s: Stores, w: WorkflowId, mode: Mode, a: Activation)
    requires IsActivation(a) && Activated(s, w, mode, a).1.Some?
    ensures var (s', error) := Activated(s, w, mode, a);
            if a.rejection.Some? then error == a.rejection
            else error == Some(FirstFailure(s.rows, w, mode, a)) && w in s'.errors && Some(s'.errors[w]) == error
  {
    var (s1, error) := Attempted(s, w, mode, a);
    AttemptThrowsTheFirst(s, w, mode, a);
    if error.Some? {
      RefusalThrows(s1, w, error.value, a.rejection);
    } else {
      FinishThrows(Dequeued(s1, w), w, a.finish, a.rejection);
    }
  }

  lemma AttemptThrowsTheFirst(s: Stores, w: WorkflowId, mode: Mode, a: Activation)
    requires IsActivation(a)
    ensures Attempted(s, w, mode, a).1.Some? ==>
              Attempted(s, w, mode, a).1 == Some(FirstFailure(s.rows, w, mode, a))
    ensures Attempted(s, w, mode, a).1.None? && a.finish != Finished ==>
              FirstFailure(s.rows, w, mode, a) == a.finish.message
  {
    AdditionFailsExactlyWhen(s.rows, w, a.webhooks, mode == Init);
  }

  lemma RefusalThrows(s: Stores, w: WorkflowId, message: string, rejection: Option<string>)
    ensures var (s', error) := Refused(s, w, message, rejection);
            if rejection.Some? then error == rejection && s' == s
            else error == Some(message) && w in s'.errors && s'.errors[w] == message
  {
  }

  lemma FinishThrows(s: Stores, w: WorkflowId, finish: Finish, rejection: Option<string>)
    ensures var (s', error) := FinishedWith(s, w, finish, rejection);
            && (error.Some? <==> finish != Finished)
            && (error.Some? ==>
                  if rejection.Some? then error == rejection
                  else error == Some(finish.message) && w in s'.errors && s'.errors[w] == finish.message)
  {
  }

  // ---------- startups ----------

  /** The message contains the word. */
  ghost predicate IsAuthorizationFailure(message: string) {
    exists before, after :: message == before + ("Authorization" + after)
  }

  lemma IncludesTheWord(message: string)
    ensures Includes(message, "Authorization") <==> IsAuthorizationFailure(message)
  {
    if i: nat :| OccursAt(message, "Authorization", i) {
      var rest := message[i..][|"Authorization"|..];
      assert message[i..] == "Authorization" + rest;
      assert message == message[..i] + ("Authorization" + rest);
    }
    if before, after :| message == before + ("Authorization" + after) {
      assert message[|before|..] == "Authorization" + after;
      assert OccursAt(message, "Authorization", |before|);
    }
  }

  /** A startup that throws queues the workflow, with the mode of an initialization and a delay of a second,
      if and only if its message does not contain the word. */
  lemma StartupQueuesExactlyWhen(s: Stores, w: WorkflowId, mode: Mode, a: Activation)
    requires IsActivation(a)
    ensures var (s1, error) := Activated(s, w, mode, a);
            if error.Some? && !IsAuthorizationFailure(error.value) then
              var s' := Step(s, Start(w, mode, a));
              && w in s'.queue && s'.queue[w] == Entry(Init, 1000, s1.nextTimer)
              && s1.nextTimer in s'.timers && s'.timers[s1.nextTimer] == Retry(w, Init)
            else Step(s, Start(w, mode, a)) == s1
  {
    var error := Activated(s, w, mode, a).1;
    if error.Some? {
      IncludesTheWord(error.value);
    }
  }
}
