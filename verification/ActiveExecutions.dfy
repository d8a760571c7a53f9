/** The active executions of a process. Each method is one uninterrupted stretch of the
    source; what it leaves pending is recorded in `calls`. */
module ActiveExecutionsModel {
  import opened Options
  import opened ConcurrencyControlModel
  import opened ExecutionRuns
  import opened ExecutionSafety
  import opened ExecutionShutdown

  predicate IsRunning(calls: seq<Call>, t: Ticket) {
    t < |calls| && calls[t].phase == Running
  }

  class ActiveExecutions {
    const concurrencyControl: ConcurrencyControl
    /** Whether executions run in this process, in the regular mode, and not in workers. */
    const regular: bool
    /** The last call inserted under each id. */
    var activeExecutions: map<Id, Ticket>
    /** The calls made so far, each with its promise. */
    var calls: seq<Call>

    ghost predicate Valid()
      reads this, concurrencyControl, concurrencyControl.Queues()
    {
      concurrencyControl.Valid() && (!regular ==> !concurrencyControl.isEnabled)
    }

    ghost function State(): System
      reads this, concurrencyControl, concurrencyControl.Queues()
    {
      System(concurrencyControl.State(), calls, activeExecutions)
    }

    ghost function Footprint(): set<object>
    {
      {this, concurrencyControl} + concurrencyControl.Queues()
    }

    constructor (regular: bool, control: ConcurrencyControl)
      requires control.Valid() && (!regular ==> !control.isEnabled)
      ensures Valid() && this.regular == regular && concurrencyControl == control
      ensures State() == System(control.State(), [], map[])
    {
      this.regular, concurrencyControl := regular, control;
      activeExecutions, calls := map[], [];
    }

    predicate Has(id: Id)
      reads this
    {
      id in activeExecutions
    }

    /** The start of an addition, up to the database call: a new execution is throttled in the
        regular mode only, a resumed one always. */
    method Add(id: Id, isNew: bool, mode: Mode)
      requires Valid()
      modifies Footprint()
      ensures Valid()
      ensures State() == Step(old(State()), Event.Add(id, mode))
      ensures activeExecutions == old(activeExecutions)
      ensures |calls| == |old(calls)| + 1 && calls[..|old(calls)|] == old(calls)
      ensures var (control, passes) :=
                Throttled(old(concurrencyControl.State()), mode, Waiter(id, |old(calls)|));
              && concurrencyControl.State() == control
              && calls[|old(calls)|] == Call(id, mode, if passes then Granted else Waiting)
    {
      var passes := true;
      if !isNew || regular {
        passes := concurrencyControl.Throttle(mode, id, |calls|);
      }
      calls := calls + [Call(id, mode, if passes then Granted else Waiting)];
    }

    /** The database call returns: the execution becomes active, or the addition fails. */
    method DatabaseUpdated(t: Ticket, succeeded: bool)
      requires Valid()
      modifies Footprint()
      ensures Valid()
      ensures State() == Step(old(State()), if succeeded then Insert(t) else Fail(t))
      ensures concurrencyControl.State() == old(concurrencyControl.State())
      ensures if t < |old(calls)| && old(calls)[t].phase == Granted then
                && calls == old(calls)[t := old(calls)[t].(phase := if succeeded then Running else Failed)]
                && activeExecutions == if succeeded then old(activeExecutions)[old(calls)[t].id := t]
                                       else old(activeExecutions)
              else calls == old(calls) && activeExecutions == old(activeExecutions)
    {
      if t < |calls| && calls[t].phase == Granted {
        if succeeded {
          activeExecutions := activeExecutions[calls[t].id := t];
        }
        calls := WithPhase(calls, t, if succeeded then Running else Failed);
      }
    }

    method StopExecution(id: Id)
      requires Valid()
      modifies Footprint()
      ensures Valid()
      ensures State() == Step(old(State()), Stop(id))
      ensures activeExecutions == old(activeExecutions)
      ensures concurrencyControl.State() == old(concurrencyControl.State())
      ensures if id in old(activeExecutions) && IsRunning(old(calls), old(activeExecutions)[id])
              then calls == old(calls)[old(activeExecutions)[id] :=
                                         old(calls)[old(activeExecutions)[id]].(phase := Settled(Cancelled))]
              else calls == old(calls)
    {
      if !Has(id) {
        return;
      }
      Settle(activeExecutions[id], Cancelled);
    }

    method FinalizeExecution(id: Id)
      requires Valid()
      modifies Footprint()
      ensures Valid()
      ensures State() == Step(old(State()), Finalize(id))
      ensures activeExecutions == old(activeExecutions)
      ensures concurrencyControl.State() == old(concurrencyControl.State())
      ensures if id in old(activeExecutions) && IsRunning(old(calls), old(activeExecutions)[id])
              then calls == old(calls)[old(activeExecutions)[id] :=
                                         old(calls)[old(activeExecutions)[id]].(phase := Settled(Finished))]
              else calls == old(calls)
    {
      if !Has(id) {
        return;
      }
      Settle(activeExecutions[id], Finished);
    }

    /** A promise settles once; later attempts have no effect. */
    method Settle(t: Ticket, outcome: Outcome)
      modifies this`calls
      ensures calls == if t < |old(calls)| && old(calls)[t].phase == Running
                       then WithPhase(old(calls), t, Settled(outcome)) else old(calls)
    {
      if t < |calls| && calls[t].phase == Running {
        calls := WithPhase(calls, t, Settled(outcome));
      }
    }

    /** The reaction to a settled promise: the permit is released and the entry deleted. */
    method CleanUp(t: Ticket)
      requires Valid()
      modifies Footprint()
      ensures Valid()
      ensures State() == Step(old(State()), Event.CleanUp(t))
      ensures if t < |old(calls)| && old(calls)[t].phase.Settled? then
                var (control, resolved) := Released(old(concurrencyControl.State()), old(calls)[t].mode);
                && concurrencyControl.State() == control
                && activeExecutions == old(activeExecutions) - {old(calls)[t].id}
                && |calls| == |old(calls)|
                && calls[t] == old(calls)[t].(phase := Done(old(calls)[t].phase.outcome))
                && forall u :: 0 <= u < |calls| && u != t ==>
                     calls[u] == if resolved == Some(u) then old(calls)[u].(phase := Granted) else old(calls)[u]
              else
                && calls == old(calls) && activeExecutions == old(activeExecutions)
                && concurrencyControl.State() == old(concurrencyControl.State())
    {
      if t < |calls| && calls[t].phase.Settled? {
        var call := calls[t];
        var resolved := concurrencyControl.Release(call.mode);
        calls := Mark(calls, resolved, Granted);
        calls := WithPhase(calls, t, Done(call.phase.outcome));
        activeExecutions := activeExecutions - {call.id};
      }
    }

    /** An execution that waits is withdrawn from its queue. */
    method Withdraw(id: Id, mode: Mode)
      requires Valid()
      modifies Footprint()
      ensures Valid()
      ensures State() == Step(old(State()), Remove(id, mode))
    {
      var removed, resolved := concurrencyControl.Remove(mode, id);
      calls := Mark(Mark(calls, removed, Dropped), resolved, Granted);
    }

    method Perform(e: Event)
      requires Valid()
      modifies Footprint()
      ensures Valid()
      ensures State() == Step(old(State()), e)
    {
      match e
      case Add(id, mode) => Add(id, false, mode);
      case Fail(t) => DatabaseUpdated(t, false);
      case Insert(t) => DatabaseUpdated(t, true);
      case Stop(id) => StopExecution(id);
      case Finalize(id) => FinalizeExecution(id);
      case CleanUp(t) => CleanUp(t);
      case Remove(id, mode) => Withdraw(id, mode);
      case Disable => concurrencyControl.Disable();
    }

    method PerformAll(events: seq<Event>)
      requires Valid()
      modifies Footprint()
      ensures Valid()
      ensures State() == Run(old(State()), events)
    {
      for i := 0 to |events|
        invariant Valid()
        invariant Run(State(), events[i..]) == Run(old(State()), events)
      {
        Perform(events[i]);
        assert events[i..][1..] == events[i + 1..];
      }
    }

    /** The part of the shutdown before it waits. */
    method BeginShutdown(cancelAll: bool)
      requires Valid()
      modifies Footprint()
      ensures Valid()
      ensures State() == ShutdownStart(old(State()), regular, cancelAll)
      ensures activeExecutions == old(activeExecutions) && (regular ==> !concurrencyControl.isEnabled)
      ensures |calls| == |old(calls)|
      ensures forall t :: 0 <= t < |calls| ==>
        calls[t] == if cancelAll && IsRunning(old(calls), t)
                       && (exists id :: id in old(activeExecutions) && old(activeExecutions)[id] == t)
                    then old(calls)[t].(phase := Settled(Cancelled)) else old(calls)[t]
    {
      if regular {
        concurrencyControl.Disable();
      }
      if cancelAll {
        ghost var quiet := State();
        if regular {
          // The control is disabled by now, so nobody is withdrawn.
          var removed, resolved := concurrencyControl.RemoveAll();
        }
        var ids := activeExecutions.Keys;
        StopNothing(quiet);
        while ids != {}
          invariant Valid() && ids <= quiet.active.Keys
          invariant State() == Stopped(quiet, quiet.active.Keys - ids)
          decreases ids
        {
          var id :| id in ids;
          StopOneMore(quiet, quiet.active.Keys - ids, id);
          assert quiet.active.Keys - (ids - {id}) == quiet.active.Keys - ids + {id};
          StopExecution(id);
          ids := ids - {id};
        }
        assert quiet.active.Keys - {} == quiet.active.Keys;
      }
    }

    /** Waits until nothing is active. Between two polls the process goes on: `rounds` says
        what happens meanwhile, and the polling stops at the latest when they are used up. */
    method Shutdown(cancelAll: bool, rounds: seq<seq<Event>>) returns (polls: nat)
      requires Valid()
      modifies Footprint()
      ensures Valid()
      ensures polls <= |rounds|
      ensures State() == AfterRounds(ShutdownStart(old(State()), regular, cancelAll), rounds, polls)
      ensures activeExecutions.Keys == {} || polls == |rounds|
      ensures forall i :: 0 <= i < polls ==>
        AfterRounds(ShutdownStart(old(State()), regular, cancelAll), rounds, i).active.Keys != {}
    {
      var executionIds := activeExecutions.Keys;
      BeginShutdown(cancelAll);
      polls := WaitFor(executionIds, rounds);
    }

    /** Polls until no execution is active any more. */
    method WaitFor(ids: set<Id>, rounds: seq<seq<Event>>) returns (polls: nat)
      requires Valid() && ids == activeExecutions.Keys
      modifies Footprint()
      ensures Valid()
      ensures polls <= |rounds| && State() == AfterRounds(old(State()), rounds, polls)
      ensures activeExecutions.Keys == {} || polls == |rounds|
      ensures forall i :: 0 <= i < polls ==> AfterRounds(old(State()), rounds, i).active.Keys != {}
    {
      ghost var start := State();
      var executionIds := ids;
      polls := 0;
      while executionIds != {} && polls < |rounds|
        invariant Valid() && polls <= |rounds|
        invariant executionIds == activeExecutions.Keys
        invariant State() == AfterRounds(start, rounds, polls)
        invariant forall i :: 0 <= i < polls ==> AfterRounds(start, rounds, i).active.Keys != {}
        decreases |rounds| - polls
      {
        assert State().active.Keys != {};
        RunOneRound(start, rounds, polls);
        PerformAll(rounds[polls]);
        executionIds := activeExecutions.Keys;
        polls := polls + 1;
      }
    }
  }

  function Flatten(rounds: seq<seq<Event>>): seq<Event> {
    if rounds == [] then [] else Flatten(rounds[..|rounds| - 1]) + rounds[|rounds| - 1]
  }

  /** The state after the first `i` rounds. */
  ghost function AfterRounds(s: System, rounds: seq<seq<Event>>, i: nat): System
    requires i <= |rounds|
  {
    Run(s, Flatten(rounds[..i]))
  }

  lemma RunOneRound(s: System, rounds: seq<seq<Event>>, i: nat)
    requires i < |rounds|
    ensures AfterRounds(s, rounds, i + 1) == Run(AfterRounds(s, rounds, i), rounds[i])
  {
    assert rounds[..i + 1] == rounds[..i] + [rounds[i]];
    FlattenSnoc(rounds[..i], rounds[i]);
    RunOfConcat(s, Flatten(rounds[..i]), rounds[i]);
  }

  lemma FlattenSnoc(rounds: seq<seq<Event>>, round: seq<Event>)
    ensures Flatten(rounds + [round]) == Flatten(rounds) + round
  {
    assert (rounds + [round])[..|rounds|] == rounds;
  }

  /** If the call was inserted during the run, its cleanup has run too. */
  ghost predicate IsClean(s: System, events: seq<Event>, t: Ticket) {
    Inserts(s, events, t) ==> Releases(s, events, t) > 0
  }

  /** After a shutdown that cancels everything nothing is active if and only if the cleanup of each
      execution active at its start has run, and that of each one inserted since, whose database call
      was under way; and no execution that waited for a permit has resumed. */
  lemma ShutdownDrainsExactlyWhen(s: System, limits: map<Kind, int>, regular: bool, events: seq<Event>)
    requires Good(s, limits) && Tracks(s) && (!regular ==> !s.control.enabled)
    requires NeverReinserts(ShutdownStart(s, regular, true), events)
    ensures var start := ShutdownStart(s, regular, true);
            Run(start, events).active.Keys == {} <==>
              && (forall id :: id in s.active ==> Event.CleanUp(s.active[id]) in events)
              && forall t :: IsClean(start, events, t)
    ensures var s' := Run(ShutdownStart(s, regular, true), events);
            forall t :: 0 <= t < |s.calls| && s.calls[t].phase.Waiting? ==>
              t < |s'.calls| && s'.calls[t] == s.calls[t]
  {
    var start := ShutdownStart(s, regular, true);
    var s' := Run(start, events);
    CancelAllSettlesEverything(s, limits, regular);
    ShutdownLeaves(start, limits, events);
    DisabledQueuesAreFrozen(start, limits, events);
    forall t | 0 <= t < |s.calls| && s.calls[t].phase.Waiting?
      ensures t < |s'.calls| && s'.calls[t] == s.calls[t]
    {
      assert start.calls[t] == s.calls[t];
    }
  }

  lemma ShutdownLeaves(start: System, limits: map<Kind, int>, events: seq<Event>)
    requires Good(start, limits) && Draining(start) && NeverReinserts(start, events)
    ensures Run(start, events).active.Keys == {} <==>
              && (forall id :: id in start.active ==> Event.CleanUp(start.active[id]) in events)
              && forall t :: IsClean(start, events, t)
  {
    var s' := Run(start, events);
    forall t
      ensures IsActive(start, t) ==> (IsActive(s', t) <==> Event.CleanUp(t) !in events)
      ensures Inserts(start, events, t) ==> (IsActive(s', t) <==> Releases(start, events, t) == 0)
      ensures IsActive(s', t) ==> IsActive(start, t) || Inserts(start, events, t)
    {
      DrainsExactlyTheCleanedUp(start, limits, events, t);
      ActiveIsOpen(s', t);
      OpenExactlyWhen(start, limits, events, t);
    }
    if s'.active.Keys == {} {
      forall id | id in start.active ensures Event.CleanUp(start.active[id]) in events {
        assert IsActive(start, start.active[id]) && !IsActive(s', start.active[id]);
      }
      forall t ensures IsClean(start, events, t) {
        assert !IsActive(s', t);
      }
    } else {
      var id :| id in s'.active.Keys;
      var t := s'.active[id];
      assert IsActive(s', t);
      if IsActive(start, t) {
        var id' :| id' in start.active && start.active[id'] == t;
        assert Event.CleanUp(start.active[id']) !in events;
      } else {
        assert !IsClean(start, events, t);
      }
    }
  }
}
