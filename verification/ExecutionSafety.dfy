/** What the runs of the active executions guarantee: a life cycle that releases
    each permit once, the concurrency limit and exactly how it is exceeded, and a
    shutdown that drains. */
module ExecutionSafety {
  import opened Options
  import opened ConcurrencyControlModel
  import opened ExecutionRuns

  // ---------- life cycle ----------

  predicate Follows(c: Call, c': Call) {
    && c'.id == c.id && c'.mode == c.mode
    && match c.phase
       case Waiting => c'.phase.Waiting? || c'.phase.Granted? || c'.phase.Dropped?
       case Granted => c'.phase.Granted? || c'.phase.Failed? || c'.phase.Running?
       case Running => c'.phase.Running? || c'.phase.Settled?
       case Settled(o) => c'.phase == Settled(o) || c'.phase == Done(o)
       case Dropped | Failed | Done(_) => c'.phase == c.phase
  }

  /** Only a waiter can be resolved or withdrawn. */
  lemma ResolvedWasWaiting(s: System, limits: map<Kind, int>, mode: Mode)
    requires Good(s, limits)
    ensures var resolved := Released(s.control, mode).1;
            resolved.Some? ==> resolved.value < |s.calls| && s.calls[resolved.value].phase.Waiting?
  {
    if Limits(s.control, mode) {
      var k := KindOf(mode).value;
      assert QueueMatches(s.calls, s.control.queues[k].queue, k);
    }
  }

  lemma WithdrawnWereWaiting(s: System, limits: map<Kind, int>, mode: Mode, id: Id)
    requires Good(s, limits)
    ensures var (_, removed, resolved) := Withdrawn(s.control, mode, id);
            && (removed.Some? ==> removed.value < |s.calls| && s.calls[removed.value].phase.Waiting?)
            && (resolved.Some? ==> resolved.value < |s.calls| && s.calls[resolved.value].phase.Waiting?
                                   && removed != resolved)
  {
    if Limits(s.control, mode) {
      var k := KindOf(mode).value;
      var queue := s.control.queues[k].queue;
      assert QueueMatches(s.calls, queue, k);
      HeadAfterRemoval(queue, FirstIndex(queue, id));
    }
  }

  /** Once a waiter is removed, the first one left was waiting behind or before it. */
  lemma HeadAfterRemoval(queue: seq<Waiter>, i: nat)
    ensures i < |queue| && queue[..i] + queue[i + 1..] != [] ==>
      |queue| > 1 && (queue[..i] + queue[i + 1..])[0] == queue[if i == 0 then 1 else 0]
  {
  }

  lemma CleanUpFollowsLifeCycle(s: System, limits: map<Kind, int>, u: Ticket, t: Ticket)
    requires Good(s, limits) && t < |s.calls|
    ensures t < |CleanedUp(s, u).calls| && Follows(s.calls[t], CleanedUp(s, u).calls[t])
    ensures CleanedUp(s, u).calls[t].phase.Done? && !s.calls[t].phase.Done? <==> u == t && s.calls[t].phase.Settled?
  {
    if u < |s.calls| {
      ResolvedWasWaiting(s, limits, s.calls[u].mode);
    }
  }

  lemma RemovalFollowsLifeCycle(s: System, limits: map<Kind, int>, id: Id, mode: Mode, t: Ticket)
    requires Good(s, limits) && t < |s.calls|
    ensures t < |WithdrawnFrom(s, id, mode).calls| && Follows(s.calls[t], WithdrawnFrom(s, id, mode).calls[t])
    ensures WithdrawnFrom(s, id, mode).calls[t].phase.Done? <==> s.calls[t].phase.Done?
  {
    WithdrawnWereWaiting(s, limits, mode, id);
  }

  /** Each step leaves a call alone or moves it along its life cycle; a settled
      promise keeps the outcome it settled with first. */
  lemma StepFollowsLifeCycle(s: System, limits: map<Kind, int>, e: Event, t: Ticket)
    requires Good(s, limits) && t < |s.calls|
    ensures t < |Step(s, e).calls| && Follows(s.calls[t], Step(s, e).calls[t])
    ensures Step(s, e).calls[t].phase.Done? && !s.calls[t].phase.Done? <==> e == CleanUp(t) && s.calls[t].phase.Settled?
  {
    match e
    case CleanUp(u) => CleanUpFollowsLifeCycle(s, limits, u, t);
    case Remove(id, mode) => RemovalFollowsLifeCycle(s, limits, id, mode, t);
    case Add(id, mode) => assert Added(s, id, mode).calls[t] == s.calls[t];
    case _ =>
  }

  /** How often the cleanup of `t` gives its permit back in a run. */
  ghost function Releases(s: System, events: seq<Event>, t: Ticket): nat
    decreases |events|
  {
    if events == [] then 0
    else
      (if events[0] == CleanUp(t) && t < |s.calls| && s.calls[t].phase.Settled? then 1 else 0)
      + Releases(Step(s, events[0]), events[1..], t)
  }

  lemma {:induction false} ReleasesMatchPhase(s: System, limits: map<Kind, int>, events: seq<Event>, t: Ticket)
    requires Good(s, limits)
    ensures Releases(s, events, t) + (if t < |s.calls| && s.calls[t].phase.Done? then 1 else 0)
         == var s' := Run(s, events); if t < |s'.calls| && s'.calls[t].phase.Done? then 1 else 0
    decreases |events|
  {
    if events == [] {
    } else {
      StepKeepsGood(s, limits, events[0]);
      if t < |s.calls| {
        StepFollowsLifeCycle(s, limits, events[0], t);
      }
      ReleasesMatchPhase(Step(s, events[0]), limits, events[1..], t);
    }
  }

  /** From the start, under any interleaving of repeated stops and finalizations, a call
      releases exactly once if it was cleaned up and never otherwise. */
  lemma ReleasedExactlyOnce(
    regular: bool, productionLimit: int, evaluationLimit: int, events: seq<Event>, t: Ticket)
    ensures var s := Initial(regular, productionLimit, evaluationLimit);
            var s' := Run(s, events);
            Releases(s, events, t) == if t < |s'.calls| && s'.calls[t].phase.Done? then 1 else 0
  {
    ReleasesMatchPhase(Initial(regular, productionLimit, evaluationLimit),
                       LimitsInForce(regular, productionLimit, evaluationLimit), events, t);
  }

  /** First come, first served: the waiter that a release resolves called before every other
      call of its kind that still waits. */
  lemma FirstComeFirstServed(s: System, limits: map<Kind, int>, mode: Mode, t: Ticket)
    requires Good(s, limits) && t < |s.calls|
    requires s.calls[t].phase.Waiting? && KindOf(s.calls[t].mode) == KindOf(mode)
    requires s.control.enabled
    ensures Released(s.control, mode).1.Some? && Released(s.control, mode).1.value <= t
  {
    var k := KindOf(mode).value;
    var queue := s.control.queues[k].queue;
    assert QueueMatches(s.calls, queue, k);
    var i :| 0 <= i < |queue| && queue[i].ticket == t;
  }

  // ---------- the limit ----------

  ghost predicate WithinLimit(s: System, limits: map<Kind, int>, k: Kind)
    requires k in limits
  {
    Held(s.calls, k) <= limits[k]
  }

  ghost predicate OvergrantsAt(s: System, e: Event, k: Kind) {
    e.Remove? && KindOf(e.mode) == Some(k) && Overgrants(s, e.id, e.mode)
  }

  lemma RemovalExceedsExactlyWhen(s: System, limits: map<Kind, int>, id: Id, mode: Mode, k: Kind)
    requires Good(s, limits) && s.control.enabled && k in limits
    requires WithinLimit(s, limits, k)
    ensures !WithinLimit(WithdrawnFrom(s, id, mode), limits, k) <==> OvergrantsAt(s, Remove(id, mode), k)
  {
    WithdrawSeenBy(s, limits, id, mode, k);
    assert s.control.queues[k].queue != [] ==> Held(s.calls, k) >= limits[k];
  }

  lemma AddStaysWithinLimit(s: System, limits: map<Kind, int>, id: Id, mode: Mode, k: Kind)
    requires Good(s, limits) && s.control.enabled && k in limits
    requires WithinLimit(s, limits, k)
    ensures WithinLimit(Added(s, id, mode), limits, k)
  {
    HeldAfterAppend(s.calls, Added(s, id, mode).calls[|s.calls|], k);
    assert s.control.queues[k].capacity == limits[k] - |s.control.queues[k].queue| - Held(s.calls, k);
  }

  /** A change from one permit-holding phase to another, or none, leaves the count. */
  lemma PhaseChangeStaysWithinLimit(s: System, e: Event, k: Kind)
    requires e.Fail? || e.Insert? || e.Stop? || e.Finalize?
    ensures Held(Step(s, e).calls, k) == Held(s.calls, k)
  {
    match e
    case Fail(t) =>
      if InPhase(s, t, Granted) { HeldAfterUpdate(s.calls, t, s.calls[t].(phase := Failed), k); }
    case Insert(t) =>
      if InPhase(s, t, Granted) { HeldAfterUpdate(s.calls, t, s.calls[t].(phase := Running), k); }
    case Stop(id) =>
      if id in s.active && InPhase(s, s.active[id], Running) {
        HeldAfterUpdate(s.calls, s.active[id], s.calls[s.active[id]].(phase := Settled(Cancelled)), k);
      }
    case Finalize(id) =>
      if id in s.active && InPhase(s, s.active[id], Running) {
        HeldAfterUpdate(s.calls, s.active[id], s.calls[s.active[id]].(phase := Settled(Finished)), k);
      }
  }

  /** While the control is enabled, a step exceeds the limit if and only if it removes a
      waiter from a queue in which another one waits. */
  lemma LimitExceededExactlyWhen(s: System, limits: map<Kind, int>, e: Event, k: Kind)
    requires Good(s, limits) && s.control.enabled && k in limits
    requires WithinLimit(s, limits, k)
    ensures !WithinLimit(Step(s, e), limits, k) <==> OvergrantsAt(s, e, k)
  {
    match e
    case Remove(id, mode) => RemovalExceedsExactlyWhen(s, limits, id, mode, k);
    case Add(id, mode) => AddStaysWithinLimit(s, limits, id, mode, k);
    case CleanUp(t) =>
      if t < |s.calls| && s.calls[t].phase.Settled? {
        CleanUpHeld(s, limits, t, k);
      }
    case Disable =>
    case _ => PhaseChangeStaysWithinLimit(s, e, k);
  }

  /** A cleanup passes the permit on or gives it up. */
  lemma CleanUpHeld(s: System, limits: map<Kind, int>, t: Ticket, k: Kind)
    requires Good(s, limits) && s.control.enabled && k in limits
    requires t < |s.calls| && s.calls[t].phase.Settled?
    ensures Held(CleanedUp(s, t).calls, k) <= Held(s.calls, k)
  {
    var calls := AfterRelease(s, s.calls[t].mode);
    GrantKeepsQueues(s, limits, s.calls[t].mode, k);
    GrantLeavesOthers(s, limits, s.calls[t].mode, t);
    HeldAfterUpdate(calls, t, calls[t].(phase := Done(s.calls[t].phase.outcome)), k);
  }

  ghost predicate AlwaysWithinLimit(s: System, limits: map<Kind, int>, events: seq<Event>, k: Kind)
    requires k in limits
    decreases |events|
  {
    WithinLimit(s, limits, k) && (events != [] ==> AlwaysWithinLimit(Step(s, events[0]), limits, events[1..], k))
  }

  ghost predicate NeverOvergrants(s: System, events: seq<Event>, k: Kind)
    decreases |events|
  {
    events != [] ==> !OvergrantsAt(s, events[0], k) && NeverOvergrants(Step(s, events[0]), events[1..], k)
  }

  /** As long as the control is enabled, a run stays within the limit all along if and only if it
      never removes a waiter while another waits. */
  lemma {:induction false} LimitHoldsOverRuns(s: System, limits: map<Kind, int>, events: seq<Event>, k: Kind)
    requires Good(s, limits) && s.control.enabled && k in limits
    requires WithinLimit(s, limits, k)
    requires forall e :: e in events ==> !e.Disable?
    ensures AlwaysWithinLimit(s, limits, events, k) <==> NeverOvergrants(s, events, k)
    decreases |events|
  {
    if events == [] {
    } else {
      var e, s' := events[0], Step(s, events[0]);
      StepKeepsGood(s, limits, e);
      LimitExceededExactlyWhen(s, limits, e, k);
      if WithinLimit(s', limits, k) {
        StaysEnabled(s, e);
        LimitHoldsOverRuns(s', limits, events[1..], k);
      }
    }
  }

  lemma StaysEnabled(s: System, e: Event)
    requires !e.Disable?
    ensures Step(s, e).control.enabled == s.control.enabled
  {
  }

  /** One place and two more calls that wait for it. */
  function TwoWait(): System {
    System(ControlState(true, map[ProductionQueue := QueueState(-2, [Waiter("2", 1), Waiter("3", 2)])]),
           [Call("1", Webhook, Granted), Call("2", Webhook, Waiting), Call("3", Webhook, Waiting)], map[])
  }

  lemma ThreeCalls()
    ensures Step(Step(Step(Initial(true, 1, -1), Add("1", Webhook)), Add("2", Webhook)), Add("3", Webhook)) == TwoWait()
  {
    var s1 := Step(Initial(true, 1, -1), Add("1", Webhook));
    assert s1.calls == [Call("1", Webhook, Granted)];
    assert s1.control.queues == map[ProductionQueue := QueueState(0, [])];
    var s2 := Step(s1, Add("2", Webhook));
    assert s2.calls == [Call("1", Webhook, Granted), Call("2", Webhook, Waiting)];
    assert s2.control.queues[ProductionQueue] == QueueState(-1, [Waiter("2", 1)]);
    assert s2.control.queues == map[ProductionQueue := QueueState(-1, [Waiter("2", 1)])];
    var s3 := Step(s2, Add("3", Webhook));
    assert s3.calls == TwoWait().calls;
    assert s3.control.queues[ProductionQueue] == QueueState(-2, [Waiter("2", 1), Waiter("3", 2)]);
    assert s3.control.queues == TwoWait().control.queues;
  }

  lemma RemovalGrants()
    ensures Step(TwoWait(), Remove("2", Webhook)).calls
         == [Call("1", Webhook, Granted), Call("2", Webhook, Dropped), Call("3", Webhook, Granted)]
  {
    var queue := TwoWait().control.queues[ProductionQueue].queue;
    assert FirstIndex(queue, "2") == 0;
    assert queue[..0] + queue[0 + 1..] == [Waiter("3", 2)];
  }

  lemma TwoAreHeld()
    ensures Held([Call("1", Webhook, Granted), Call("2", Webhook, Dropped), Call("3", Webhook, Granted)],
                 ProductionQueue) == 2
  {
    var first, second, third := Call("1", Webhook, Granted), Call("2", Webhook, Dropped), Call("3", Webhook, Granted);
    HeldAfterAppend([], first, ProductionQueue);
    HeldAfterAppend([first], second, ProductionQueue);
    HeldAfterAppend([first, second], third, ProductionQueue);
    assert [] + [first] == [first] && [first] + [second] == [first, second];
    assert [first, second] + [third] == [first, second, third];
  }

  /** One place, three calls: removing the second lets the third run beside the first. */
  lemma RemovalLetsTwoRunWithLimitOne()
    ensures var s := Run(Initial(true, 1, -1),
                         [Add("1", Webhook), Add("2", Webhook), Add("3", Webhook), Remove("2", Webhook)]);
            Held(s.calls, ProductionQueue) == 2
  {
    ThreeCalls();
    RemovalGrants();
    TwoAreHeld();
    RunOfFour(Initial(true, 1, -1), Add("1", Webhook), Add("2", Webhook), Add("3", Webhook), Remove("2", Webhook));
  }

  lemma RunOfFour(s: System, a: Event, b: Event, c: Event, d: Event)
    ensures Run(s, [a, b, c, d]) == Step(Step(Step(Step(s, a), b), c), d)
  {
    assert [a, b, c, d][1..] == [b, c, d] && [b, c, d][1..] == [c, d] && [c, d][1..] == [d] && [d][1..] == [];
    var s3 := Step(Step(Step(s, a), b), c);
    assert Run(s3, [d]) == Step(s3, d);
    assert Run(Step(s, a), [b, c, d]) == Run(Step(Step(s, a), b), [c, d]) == Run(s3, [d]);
  }
}
