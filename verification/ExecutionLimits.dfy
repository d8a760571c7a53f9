/** The limits by execution mode, from the start: how many executions run at once, and who waits. */
module ExecutionLimits {
  import opened Options
  import opened ConcurrencyControlModel
  import opened ExecutionRuns
  import opened ExecutionSafety

  /** The modes that share the production limit, and the one that has the evaluation limit. */
  predicate HasMode(c: Call, evaluation: bool) {
    if evaluation then c.mode == Evaluation else c.mode == Webhook || c.mode == Trigger
  }

  /** Granted and not cleaned up. */
  predicate TakesPlace(c: Call) {
    c.phase == Granted || c.phase == Failed || c.phase == Running || c.phase.Settled?
  }

  /** The places taken by calls of these modes. */
  function Taken(calls: seq<Call>, evaluation: bool): nat {
    if calls == [] then 0
    else
      var n := |calls| - 1;
      Taken(calls[..n], evaluation) + if HasMode(calls[n], evaluation) && TakesPlace(calls[n]) then 1 else 0
  }

  function KindFor(evaluation: bool): Kind {
    if evaluation then EvaluationQueue else ProductionQueue
  }

  lemma {:induction false} TakenIsHeld(calls: seq<Call>, evaluation: bool)
    ensures Taken(calls, evaluation) == Held(calls, KindFor(evaluation))
  {
    if calls == [] {
    } else {
      TakenIsHeld(calls[..|calls| - 1], evaluation);
    }
  }

  lemma {:induction false} NoRemovalOvergrantsNothing(s: System, events: seq<Event>, k: Kind)
    requires forall e :: e in events ==> !e.Remove?
    ensures NeverOvergrants(s, events, k)
    decreases |events|
  {
    if events == [] {
    } else {
      assert events[0] in events;
      NoRemovalOvergrantsNothing(Step(s, events[0]), events[1..], k);
    }
  }

  lemma {:induction false} AlwaysWithinAtTheEnd(s: System, limits: map<Kind, int>, events: seq<Event>, k: Kind)
    requires k in limits && AlwaysWithinLimit(s, limits, events, k)
    ensures WithinLimit(Run(s, events), limits, k)
    decreases |events|
  {
    if events == [] {
    } else {
      AlwaysWithinAtTheEnd(Step(s, events[0]), limits, events[1..], k);
    }
  }

  lemma {:induction false} EnabledUnlessDisabled(s: System, events: seq<Event>)
    requires forall e :: e in events ==> !e.Disable?
    ensures Run(s, events).control.enabled == s.control.enabled
    decreases |events|
  {
    if events == [] {
    } else {
      assert events[0] in events;
      StaysEnabled(s, events[0]);
      EnabledUnlessDisabled(Step(s, events[0]), events[1..]);
    }
  }

  /** With a limit of L for production no more than L executions of the modes webhook and trigger hold a
      place at once, and with one of E no more than E evaluations. */
  lemma AtMostTheLimitRun(productionLimit: int, evaluationLimit: int, events: seq<Event>)
    requires forall e :: e in events ==> !e.Disable? && !e.Remove?
    ensures var s := Run(Initial(true, productionLimit, evaluationLimit), events);
            && (productionLimit > 0 ==> Taken(s.calls, false) <= productionLimit)
            && (evaluationLimit > 0 ==> Taken(s.calls, true) <= evaluationLimit)
  {
    if productionLimit > 0 {
      AtMostTheLimit(productionLimit, evaluationLimit, events, false);
    }
    if evaluationLimit > 0 {
      AtMostTheLimit(productionLimit, evaluationLimit, events, true);
    }
  }

  lemma AtMostTheLimit(productionLimit: int, evaluationLimit: int, events: seq<Event>, evaluation: bool)
    requires forall e :: e in events ==> !e.Disable? && !e.Remove?
    requires (if evaluation then evaluationLimit else productionLimit) > 0
    ensures Taken(Run(Initial(true, productionLimit, evaluationLimit), events).calls, evaluation)
         <= if evaluation then evaluationLimit else productionLimit
  {
    var s := Initial(true, productionLimit, evaluationLimit);
    var limits := LimitsInForce(true, productionLimit, evaluationLimit);
    var k := KindFor(evaluation);
    PermitsAreConservedFromTheStart(true, productionLimit, evaluationLimit, []);
    NoRemovalOvergrantsNothing(s, events, k);
    LimitHoldsOverRuns(s, limits, events, k);
    AlwaysWithinAtTheEnd(s, limits, events, k);
    TakenIsHeld(Run(s, events).calls, evaluation);
  }

  /** Who waits is limited: nobody outside the regular mode, and nobody of a mode without a limit. */
  lemma OnlyLimitedModesWait(
    regular: bool, productionLimit: int, evaluationLimit: int, events: seq<Event>, t: Ticket)
    ensures var s := Run(Initial(regular, productionLimit, evaluationLimit), events);
            t < |s.calls| && s.calls[t].phase == Waiting ==>
              && regular
              && (if s.calls[t].mode == Evaluation then evaluationLimit > 0
                  else (s.calls[t].mode == Webhook || s.calls[t].mode == Trigger) && productionLimit > 0)
  {
    PermitsAreConservedFromTheStart(regular, productionLimit, evaluationLimit, events);
  }

  /** A call waits exactly if it is of a mode whose limit is used up: by those granted before it. */
  lemma WaitsExactlyWhen(productionLimit: int, evaluationLimit: int, events: seq<Event>, id: Id, mode: Mode)
    requires forall e :: e in events ==> !e.Disable?
    ensures var s := Run(Initial(true, productionLimit, evaluationLimit), events);
            var added := Step(s, Add(id, mode));
            && |added.calls| == |s.calls| + 1 && added.calls[..|s.calls|] == s.calls
            && added.calls[|s.calls|] ==
                 Call(id, mode,
                      if || (mode == Evaluation && evaluationLimit > 0 && Taken(s.calls, true) >= evaluationLimit)
                         || ((mode == Webhook || mode == Trigger)
                             && productionLimit > 0 && Taken(s.calls, false) >= productionLimit)
                      then Waiting else Granted)
  {
    var s := Run(Initial(true, productionLimit, evaluationLimit), events);
    PermitsAreConservedFromTheStart(true, productionLimit, evaluationLimit, events);
    EnabledUnlessDisabled(Initial(true, productionLimit, evaluationLimit), events);
    WaitsIfTaken(s, LimitsInForce(true, productionLimit, evaluationLimit), id, mode);
  }

  lemma WaitsIfTaken(s: System, limits: map<Kind, int>, id: Id, mode: Mode)
    requires Good(s, limits) && (s.control.enabled || limits == map[])
    ensures var added := Step(s, Add(id, mode));
            && |added.calls| == |s.calls| + 1 && added.calls[..|s.calls|] == s.calls
            && added.calls[|s.calls|] ==
                 Call(id, mode,
                      if || (mode == Evaluation && EvaluationQueue in limits
                             && Taken(s.calls, true) >= limits[EvaluationQueue])
                         || ((mode == Webhook || mode == Trigger)
                             && ProductionQueue in limits && Taken(s.calls, false) >= limits[ProductionQueue])
                      then Waiting else Granted)
  {
    TakenIsHeld(s.calls, false);
    TakenIsHeld(s.calls, true);
  }

  /** Once the control is disabled nobody waits any more who was not waiting, and no permit moves. */
  lemma DisabledLetsEveryonePass(s: System, id: Id, mode: Mode)
    ensures var s1 := Step(s, Disable);
            && s1.calls == s.calls && s1.active == s.active && s1.control.queues == s.control.queues
            && Step(s1, Add(id, mode)).calls == s.calls + [Call(id, mode, Granted)]
            && Step(s1, Add(id, mode)).control == s1.control
  {
  }
}
