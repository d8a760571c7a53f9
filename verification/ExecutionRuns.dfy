/** Runs of the active executions and the concurrency control together.

    Each call that adds an execution takes a ticket. A ticket waits in a queue, is
    granted, and then fails while the database is updated or becomes a running
    execution; its promise settles, and the cleanup that follows gives the permit back. */
module ExecutionRuns {
  import opened Options
  import opened ConcurrencyControlModel

  /** How the promise of an execution settled. */
  datatype Outcome = Cancelled | Finished

  datatype Phase =
    | Waiting                       // in a queue
    | Dropped                       // removed from its queue, never resumes
    | Granted                       // past the throttle, database call pending
    | Failed                        // the database call failed
    | Running                       // active, promise pending
    | Settled(outcome: Outcome)     // promise settled, cleanup pending
    | Done(outcome: Outcome)        // cleaned up

  datatype Call = Call(id: Id, mode: Mode, phase: Phase)

  datatype System = System(control: ControlState, calls: seq<Call>, active: map<Id, Ticket>)

  datatype Event =
    | Add(id: Id, mode: Mode)
    | Fail(ticket: Ticket)
    | Insert(ticket: Ticket)
    | Stop(id: Id)
    | Finalize(id: Id)
    | CleanUp(ticket: Ticket)
    | Remove(id: Id, mode: Mode)
    | Disable

  function WithPhase(calls: seq<Call>, t: Ticket, phase: Phase): seq<Call> {
    if t < |calls| then calls[t := calls[t].(phase := phase)] else calls
  }

  function Mark(calls: seq<Call>, t: Option<Ticket>, phase: Phase): seq<Call> {
    if t.Some? then WithPhase(calls, t.value, phase) else calls
  }

  predicate InPhase(s: System, t: Ticket, phase: Phase) {
    t < |s.calls| && s.calls[t].phase == phase
  }

  ghost function Added(s: System, id: Id, mode: Mode): System {
    var (control, passes) := Throttled(s.control, mode, Waiter(id, |s.calls|));
    System(control, s.calls + [Call(id, mode, if passes then Granted else Waiting)], s.active)
  }

  function InsertedAt(s: System, t: Ticket): System {
    if InPhase(s, t, Granted)
    then System(s.control, WithPhase(s.calls, t, Running), s.active[s.calls[t].id := t])
    else s
  }

  function FailedAt(s: System, t: Ticket): System {
    if InPhase(s, t, Granted) then s.(calls := WithPhase(s.calls, t, Failed)) else s
  }

  /** Settles the promise of the active execution, if it is still pending. */
  function SettledAt(s: System, id: Id, outcome: Outcome): System {
    if id in s.active && InPhase(s, s.active[id], Running)
    then s.(calls := WithPhase(s.calls, s.active[id], Settled(outcome)))
    else s
  }

  /** Runs once after the promise settles; the entry is deleted by id. */
  ghost function CleanedUp(s: System, t: Ticket): System {
    if t < |s.calls| && s.calls[t].phase.Settled? then
      var (control, resolved) := Released(s.control, s.calls[t].mode);
      var calls := Mark(s.calls, resolved, Granted);
      System(control, WithPhase(calls, t, Done(s.calls[t].phase.outcome)), s.active - {s.calls[t].id})
    else s
  }

  ghost function WithdrawnFrom(s: System, id: Id, mode: Mode): System {
    var (control, removed, resolved) := Withdrawn(s.control, mode, id);
    System(control, Mark(Mark(s.calls, removed, Dropped), resolved, Granted), s.active)
  }

  ghost function Step(s: System, e: Event): System {
    match e
    case Add(id, mode) => Added(s, id, mode)
    case Fail(t) => FailedAt(s, t)
    case Insert(t) => InsertedAt(s, t)
    case Stop(id) => SettledAt(s, id, Cancelled)
    case Finalize(id) => SettledAt(s, id, Finished)
    case CleanUp(t) => CleanedUp(s, t)
    case Remove(id, mode) => WithdrawnFrom(s, id, mode)
    case Disable => s.(control := s.control.(enabled := false))
  }

  ghost function Run(s: System, events: seq<Event>): System
    decreases |events|
  {
    if events == [] then s else Run(Step(s, events[0]), events[1..])
  }

  // ---------- permits ----------

  /** A call holds a permit of `k` from the moment it passes the throttle until its cleanup. */
  predicate Holds(c: Call, k: Kind) {
    KindOf(c.mode) == Some(k) && (c.phase.Granted? || c.phase.Failed? || c.phase.Running? || c.phase.Settled?)
  }

  function Held(calls: seq<Call>, k: Kind): nat {
    if calls == [] then 0
    else Held(calls[..|calls| - 1], k) + if Holds(calls[|calls| - 1], k) then 1 else 0
  }

  lemma {:induction false} HeldAfterUpdate(calls: seq<Call>, t: Ticket, c: Call, k: Kind)
    requires t < |calls|
    ensures Held(calls[t := c], k)
         == Held(calls, k) - (if Holds(calls[t], k) then 1 else 0) + (if Holds(c, k) then 1 else 0)
  {
    var n := |calls| - 1;
    if t == n {
      assert calls[t := c][..n] == calls[..n];
    } else {
      assert calls[t := c][..n] == calls[..n][t := c];
      HeldAfterUpdate(calls[..n], t, c, k);
    }
  }

  lemma HeldAfterAppend(calls: seq<Call>, c: Call, k: Kind)
    ensures Held(calls + [c], k) == Held(calls, k) + if Holds(c, k) then 1 else 0
  {
    assert (calls + [c])[..|calls|] == calls;
  }

  /** The waiters of a queue are calls of its kind, all still waiting, in the order of the calls. */
  ghost predicate QueueMatches(calls: seq<Call>, queue: seq<Waiter>, k: Kind) {
    && (forall i :: 0 <= i < |queue| ==>
          var w := queue[i];
          w.ticket < |calls| && calls[w.ticket] == Call(w.executionId, calls[w.ticket].mode, Waiting)
          && KindOf(calls[w.ticket].mode) == Some(k))
    && (forall i, j :: 0 <= i < j < |queue| ==> queue[i].ticket < queue[j].ticket)
  }

  ghost predicate IsQueued(queue: seq<Waiter>, t: Ticket) {
    exists i :: 0 <= i < |queue| && queue[i].ticket == t
  }

  /** Every permit granted and not given back is held by exactly one call, every waiter
      waits for a permit, and nobody waits while a permit is free. */
  ghost predicate Conserved(s: System, limits: map<Kind, int>) {
    && s.control.queues.Keys == limits.Keys
    && (forall k :: k in limits ==> QueueMatches(s.calls, s.control.queues[k].queue, k))
    && (s.control.enabled ==>
          forall k :: k in limits ==>
            var q := s.control.queues[k];
            && q.capacity == limits[k] - |q.queue| - Held(s.calls, k)
            && (q.queue != [] ==> Held(s.calls, k) >= limits[k]))
  }

  /** No waiting call is lost: it stands in the queue of its kind. */
  ghost predicate NoneLost(s: System) {
    forall t :: 0 <= t < |s.calls| && s.calls[t].phase.Waiting? ==>
      && KindOf(s.calls[t].mode).Some?
      && KindOf(s.calls[t].mode).value in s.control.queues
      && IsQueued(s.control.queues[KindOf(s.calls[t].mode).value].queue, t)
  }

  lemma PhaseKeepsQueue(calls: seq<Call>, t: Ticket, phase: Phase, queue: seq<Waiter>, k: Kind)
    requires QueueMatches(calls, queue, k)
    requires t < |calls| && (!calls[t].phase.Waiting? || KindOf(calls[t].mode) != Some(k) || !IsQueued(queue, t))
    ensures QueueMatches(WithPhase(calls, t, phase), queue, k)
  {
  }

  /** The head of a queue is granted: its permit count rises by one, and no other queue is touched. */
  lemma GrantHead(calls: seq<Call>, queue: seq<Waiter>, k: Kind)
    requires QueueMatches(calls, queue, k) && queue != []
    ensures queue[0].ticket < |calls|
    ensures var calls' := WithPhase(calls, queue[0].ticket, Granted);
            && QueueMatches(calls', queue[1..], k)
            && Held(calls', k) == Held(calls, k) + 1
            && forall k' :: k' != k ==> Held(calls', k') == Held(calls, k')
  {
    var t := queue[0].ticket;
    assert calls[t] == Call(queue[0].executionId, calls[t].mode, Waiting);
    var c := calls[t].(phase := Granted);
    forall k' ensures Held(calls[t := c], k') == Held(calls, k') + if k' == k then 1 else 0 {
      HeldAfterUpdate(calls, t, c, k');
    }
    var rest := queue[1..];
    forall i | 0 <= i < |rest| ensures rest[i] == queue[i + 1] && rest[i].ticket != t {
    }
  }

  /** A queue and its calls after one waiter at `i` is dropped. */
  lemma DropWaiter(calls: seq<Call>, queue: seq<Waiter>, i: nat, k: Kind)
    requires QueueMatches(calls, queue, k) && i < |queue|
    ensures queue[i].ticket < |calls|
    ensures var calls' := WithPhase(calls, queue[i].ticket, Dropped);
            && QueueMatches(calls', queue[..i] + queue[i + 1..], k)
            && forall k' :: Held(calls', k') == Held(calls, k')
  {
    var t := queue[i].ticket;
    assert calls[t] == Call(queue[i].executionId, calls[t].mode, Waiting);
    forall k' ensures Held(WithPhase(calls, t, Dropped), k') == Held(calls, k') {
      HeldAfterUpdate(calls, t, calls[t].(phase := Dropped), k');
    }
    RestMatches(calls, queue, i, k);
    PhaseKeepsQueue(calls, t, Dropped, queue[..i] + queue[i + 1..], k);
  }

  /** Without one waiter the queue still matches, and the waiter is nowhere else in it. */
  lemma RestMatches(calls: seq<Call>, queue: seq<Waiter>, i: nat, k: Kind)
    requires QueueMatches(calls, queue, k) && i < |queue|
    ensures QueueMatches(calls, queue[..i] + queue[i + 1..], k)
    ensures !IsQueued(queue[..i] + queue[i + 1..], queue[i].ticket)
  {
    var rest := queue[..i] + queue[i + 1..];
    forall j | 0 <= j < |rest|
      ensures rest[j] == queue[if j < i then j else j + 1] && rest[j].ticket != queue[i].ticket
    {
    }
  }

  lemma InTail(queue: seq<Waiter>, t: Ticket)
    requires queue != [] && IsQueued(queue, t) && queue[0].ticket != t
    ensures IsQueued(queue[1..], t)
  {
    var i :| 0 <= i < |queue| && queue[i].ticket == t;
    assert queue[1..][i - 1].ticket == t;
  }

  lemma InRest(queue: seq<Waiter>, i: nat, t: Ticket)
    requires i < |queue| && IsQueued(queue, t) && queue[i].ticket != t
    ensures IsQueued(queue[..i] + queue[i + 1..], t)
  {
    var j :| 0 <= j < |queue| && queue[j].ticket == t;
    var rest := queue[..i] + queue[i + 1..];
    assert rest[if j < i then j else j - 1].ticket == t;
  }

  ghost predicate Good(s: System, limits: map<Kind, int>) {
    Conserved(s, limits) && NoneLost(s)
  }

  /** One call changes phase, from one that does not wait, keeping the permits as counted. */
  lemma PhaseChangeKeepsGood(s: System, limits: map<Kind, int>, t: Ticket, phase: Phase, active: map<Id, Ticket>)
    requires Good(s, limits) && t < |s.calls| && !s.calls[t].phase.Waiting? && !phase.Waiting?
    requires forall k :: Holds(s.calls[t], k) <==> Holds(s.calls[t].(phase := phase), k)
    ensures Good(System(s.control, WithPhase(s.calls, t, phase), active), limits)
  {
    forall k | k in limits
      ensures QueueMatches(WithPhase(s.calls, t, phase), s.control.queues[k].queue, k)
      ensures Held(WithPhase(s.calls, t, phase), k) == Held(s.calls, k)
    {
      PhaseKeepsQueue(s.calls, t, phase, s.control.queues[k].queue, k);
      HeldAfterUpdate(s.calls, t, s.calls[t].(phase := phase), k);
    }
  }

  lemma AppendCall(calls: seq<Call>, c: Call, queue: seq<Waiter>, k: Kind)
    requires QueueMatches(calls, queue, k)
    ensures QueueMatches(calls + [c], queue, k)
    ensures c.phase.Waiting? && KindOf(c.mode) == Some(k) ==>
      QueueMatches(calls + [c], queue + [Waiter(c.id, |calls|)], k)
  {
  }

  lemma AppendWaiter(queue: seq<Waiter>, w: Waiter, t: Ticket)
    requires t == w.ticket || IsQueued(queue, t)
    ensures IsQueued(queue + [w], t)
  {
    var queue' := queue + [w];
    if t == w.ticket {
      assert queue'[|queue|].ticket == t;
    } else {
      var i :| 0 <= i < |queue| && queue[i].ticket == t;
      assert queue'[i].ticket == t;
    }
  }

  lemma AddSeenBy(s: System, limits: map<Kind, int>, id: Id, mode: Mode, k: Kind)
    requires Conserved(s, limits) && k in limits
    ensures var s' := Added(s, id, mode);
            && s'.control.queues.Keys == limits.Keys
            && QueueMatches(s'.calls, s'.control.queues[k].queue, k)
            && Held(s'.calls, k) == Held(s.calls, k) + if Holds(s'.calls[|s.calls|], k) then 1 else 0
  {
    var c := Added(s, id, mode).calls[|s.calls|];
    HeldAfterAppend(s.calls, c, k);
    AppendCall(s.calls, c, s.control.queues[k].queue, k);
  }

  lemma AddKeepsConserved(s: System, limits: map<Kind, int>, id: Id, mode: Mode)
    requires Conserved(s, limits)
    ensures Conserved(Added(s, id, mode), limits)
  {
    var s' := Added(s, id, mode);
    forall k | k in limits
      ensures QueueMatches(s'.calls, s'.control.queues[k].queue, k)
      ensures s'.control.enabled ==>
        && s'.control.queues[k].capacity == limits[k] - |s'.control.queues[k].queue| - Held(s'.calls, k)
        && (s'.control.queues[k].queue != [] ==> Held(s'.calls, k) >= limits[k])
    {
      AddSeenBy(s, limits, id, mode, k);
    }
  }

  lemma AddKeepsNoneLost(s: System, id: Id, mode: Mode)
    requires NoneLost(s)
    ensures NoneLost(Added(s, id, mode))
  {
    var s' := Added(s, id, mode);
    forall t | 0 <= t < |s'.calls| && s'.calls[t].phase.Waiting?
      ensures KindOf(s'.calls[t].mode).Some? && KindOf(s'.calls[t].mode).value in s'.control.queues
      ensures IsQueued(s'.control.queues[KindOf(s'.calls[t].mode).value].queue, t)
    {
      var k := KindOf(s'.calls[t].mode).value;
      if s'.control.queues[k] != s.control.queues[k] && s'.control.queues[k].queue != s.control.queues[k].queue {
        AppendWaiter(s.control.queues[k].queue, Waiter(id, |s.calls|), t);
      }
    }
  }

  /** What a cleanup does to one kind: the permit given back goes to the next waiter, if there is one. */
  lemma CleanUpSeenBy(s: System, limits: map<Kind, int>, t: Ticket, k: Kind)
    requires Conserved(s, limits) && k in limits && t < |s.calls| && s.calls[t].phase.Settled?
    ensures var (control, s') := (Released(s.control, s.calls[t].mode).0, CleanedUp(s, t));
            && s'.control == control && control.queues.Keys == limits.Keys && control.enabled == s.control.enabled
            && QueueMatches(s'.calls, control.queues[k].queue, k)
            && Held(s'.calls, k) - Held(s.calls, k)
               == |s.control.queues[k].queue| - |control.queues[k].queue| - if Holds(s.calls[t], k) then 1 else 0
  {
    var control, calls := Released(s.control, s.calls[t].mode).0, AfterRelease(s, s.calls[t].mode);
    var done := Done(s.calls[t].phase.outcome);
    GrantKeepsQueues(s, limits, s.calls[t].mode, k);
    GrantLeavesOthers(s, limits, s.calls[t].mode, t);
    PhaseKeepsQueue(calls, t, done, control.queues[k].queue, k);
    HeldAfterUpdate(calls, t, calls[t].(phase := done), k);
  }

  lemma CleanUpKeepsConserved(s: System, limits: map<Kind, int>, t: Ticket)
    requires Conserved(s, limits)
    ensures Conserved(CleanedUp(s, t), limits)
  {
    var s' := CleanedUp(s, t);
    if t < |s.calls| && s.calls[t].phase.Settled? {
      forall k | k in limits
        ensures s'.control.queues.Keys == limits.Keys && QueueMatches(s'.calls, s'.control.queues[k].queue, k)
        ensures s'.control.enabled ==>
          && s'.control.queues[k].capacity == limits[k] - |s'.control.queues[k].queue| - Held(s'.calls, k)
          && (s'.control.queues[k].queue != [] ==> Held(s'.calls, k) >= limits[k])
      {
        CleanUpSeenBy(s, limits, t, k);
      }
      CleanUpKeepsKeys(s, t);
    }
  }

  lemma CleanUpKeepsKeys(s: System, t: Ticket)
    ensures CleanedUp(s, t).control.queues.Keys == s.control.queues.Keys
  {
  }

  /** The calls once a release for `mode` has resolved the next waiter. */
  ghost function AfterRelease(s: System, mode: Mode): seq<Call> {
    Mark(s.calls, Released(s.control, mode).1, Granted)
  }

  /** A release grants at most the head of one queue, which waits. */
  lemma GrantLeavesOthers(s: System, limits: map<Kind, int>, mode: Mode, t: Ticket)
    requires Conserved(s, limits) && t < |s.calls| && !s.calls[t].phase.Waiting?
    ensures t < |AfterRelease(s, mode)| && AfterRelease(s, mode)[t] == s.calls[t]
  {
    if Limits(s.control, mode) {
      var k := KindOf(mode).value;
      assert QueueMatches(s.calls, s.control.queues[k].queue, k);
    }
  }

  /** A release moves a permit to the head of its queue, and leaves every queue matched. */
  lemma GrantKeepsQueues(s: System, limits: map<Kind, int>, mode: Mode, k: Kind)
    requires Conserved(s, limits) && k in limits
    ensures var (control, calls) := (Released(s.control, mode).0, AfterRelease(s, mode));
            && control.queues.Keys == limits.Keys && control.enabled == s.control.enabled
            && QueueMatches(calls, control.queues[k].queue, k)
            && Held(calls, k) - Held(s.calls, k) == |s.control.queues[k].queue| - |control.queues[k].queue|
  {
    if Limits(s.control, mode) {
      var k' := KindOf(mode).value;
      assert QueueMatches(s.calls, s.control.queues[k'].queue, k');
    }
    assert QueueMatches(s.calls, s.control.queues[k].queue, k);
    GrantKeepsQueue(s, mode, k);
  }

  lemma GrantKeepsQueue(s: System, mode: Mode, k: Kind)
    requires k in s.control.queues && QueueMatches(s.calls, s.control.queues[k].queue, k)
    requires Limits(s.control, mode) ==>
      QueueMatches(s.calls, s.control.queues[KindOf(mode).value].queue, KindOf(mode).value)
    ensures var (control, calls) := (Released(s.control, mode).0, AfterRelease(s, mode));
            && control.queues.Keys == s.control.queues.Keys && control.enabled == s.control.enabled
            && QueueMatches(calls, control.queues[k].queue, k)
            && Held(calls, k) - Held(s.calls, k) == |s.control.queues[k].queue| - |control.queues[k].queue|
  {
    if Limits(s.control, mode) {
      var k' := KindOf(mode).value;
      var queue' := s.control.queues[k'].queue;
      if queue' != [] {
        GrantHeadBeside(s.calls, queue', k', s.control.queues[k].queue, k);
      }
    }
  }

  lemma GrantHeadBeside(calls: seq<Call>, queue': seq<Waiter>, k': Kind, queue: seq<Waiter>, k: Kind)
    requires QueueMatches(calls, queue', k') && queue' != [] && QueueMatches(calls, queue, k)
    requires k == k' ==> queue == queue'
    ensures queue'[0].ticket < |calls| && calls[queue'[0].ticket].phase.Waiting?
    ensures var calls' := WithPhase(calls, queue'[0].ticket, Granted);
            && QueueMatches(calls', if k == k' then queue[1..] else queue, k)
            && Held(calls', k) == Held(calls, k) + if k == k' then 1 else 0
  {
    GrantHead(calls, queue', k');
    if k != k' {
      PhaseKeepsQueue(calls, queue'[0].ticket, Granted, queue, k);
    }
  }

  lemma CleanUpKeepsNoneLost(s: System, limits: map<Kind, int>, t: Ticket)
    requires Good(s, limits)
    ensures NoneLost(CleanedUp(s, t))
  {
    var s' := CleanedUp(s, t);
    if t < |s.calls| && s.calls[t].phase.Settled? {
      GrantKeepsNoneLost(s, limits, s.calls[t].mode);
    }
  }

  lemma GrantKeepsNoneLost(s: System, limits: map<Kind, int>, mode: Mode)
    requires Good(s, limits)
    ensures var (control, resolved) := Released(s.control, mode);
            NoneLost(System(control, Mark(s.calls, resolved, Granted), s.active))
  {
    var (control, resolved) := Released(s.control, mode);
    var calls := Mark(s.calls, resolved, Granted);
    forall u | 0 <= u < |calls| && calls[u].phase.Waiting?
      ensures KindOf(calls[u].mode).Some? && KindOf(calls[u].mode).value in control.queues
      ensures IsQueued(control.queues[KindOf(calls[u].mode).value].queue, u)
    {
      var k := KindOf(s.calls[u].mode).value;
      assert s.calls[u] == calls[u] && IsQueued(s.control.queues[k].queue, u);
      if resolved.Some? && KindOf(mode) == Some(k) {
        InTail(s.control.queues[k].queue, u);
      }
    }
  }

  /** A waiter is dropped; its queue moves up and, if someone is left, the head is granted. */
  lemma WithdrawKeepsOwnQueue(calls: seq<Call>, queue: seq<Waiter>, i: nat, k: Kind)
    requires QueueMatches(calls, queue, k) && i < |queue|
    ensures queue[i].ticket < |calls| && calls[queue[i].ticket].phase.Waiting?
    ensures var rest := queue[..i] + queue[i + 1..];
            var dropped := WithPhase(calls, queue[i].ticket, Dropped);
            && QueueMatches(dropped, rest, k)
            && (rest != [] ==> rest[0].ticket < |calls| && calls[rest[0].ticket].phase.Waiting?)
            && (var calls' := if rest == [] then dropped else WithPhase(dropped, rest[0].ticket, Granted);
                && QueueMatches(calls', if rest == [] then rest else rest[1..], k)
                && Held(calls', k) == Held(calls, k) + (if rest == [] then 0 else 1))
  {
    var rest := queue[..i] + queue[i + 1..];
    DropWaiter(calls, queue, i, k);
    if rest != [] {
      GrantHead(WithPhase(calls, queue[i].ticket, Dropped), rest, k);
    }
  }

  lemma WithdrawKeepsQueue(calls: seq<Call>, queue: seq<Waiter>, i: nat, k: Kind, other: seq<Waiter>, k': Kind)
    requires QueueMatches(calls, queue, k) && i < |queue|
    requires k' != k && QueueMatches(calls, other, k')
    ensures queue[i].ticket < |calls|
    ensures var rest := queue[..i] + queue[i + 1..];
            var dropped := WithPhase(calls, queue[i].ticket, Dropped);
            && (rest != [] ==> rest[0].ticket < |calls|)
            && (var calls' := if rest == [] then dropped else WithPhase(dropped, rest[0].ticket, Granted);
                QueueMatches(calls', other, k') && Held(calls', k') == Held(calls, k'))
  {
    var rest := queue[..i] + queue[i + 1..];
    var dropped := WithPhase(calls, queue[i].ticket, Dropped);
    WithdrawKeepsOwnQueue(calls, queue, i, k);
    DropWaiter(calls, queue, i, k);
    PhaseKeepsQueue(calls, queue[i].ticket, Dropped, other, k');
    if rest != [] {
      GrantHeadBeside(dropped, rest, k, other, k');
    }
  }

  /** What one queue and its calls have become after a waiter of `mode` is withdrawn. */
  ghost predicate WithdrawSeen(s: System, s': System, k: Kind, overgranted: bool)
    requires k in s.control.queues && k in s'.control.queues
  {
    var q, q' := s.control.queues[k], s'.control.queues[k];
    && QueueMatches(s'.calls, q'.queue, k)
    && Held(s'.calls, k) == Held(s.calls, k) + (if overgranted then 1 else 0)
    && q'.capacity + |q'.queue| + Held(s'.calls, k) == q.capacity + |q.queue| + Held(s.calls, k)
    && (q'.queue != [] ==> q.queue != [])
  }

  lemma WithdrawSeenBySame(s: System, id: Id, mode: Mode, k: Kind)
    requires Limits(s.control, mode) && KindOf(mode) == Some(k)
    requires QueueMatches(s.calls, s.control.queues[k].queue, k)
    ensures WithdrawSeen(s, WithdrawnFrom(s, id, mode), k, Overgrants(s, id, mode))
  {
    var queue := s.control.queues[k].queue;
    var i := FirstIndex(queue, id);
    if i < |queue| {
      WithdrawnFromIs(s, id, mode, k, queue, i);
      WithdrawKeepsOwnQueue(s.calls, queue, i, k);
    }
  }

  lemma WithdrawSeenByOther(s: System, id: Id, mode: Mode, k: Kind)
    requires k in s.control.queues && KindOf(mode) != Some(k)
    requires QueueMatches(s.calls, s.control.queues[k].queue, k)
    requires Limits(s.control, mode) ==>
      QueueMatches(s.calls, s.control.queues[KindOf(mode).value].queue, KindOf(mode).value)
    ensures WithdrawSeen(s, WithdrawnFrom(s, id, mode), k, false)
  {
    if Limits(s.control, mode) {
      var k' := KindOf(mode).value;
      var queue := s.control.queues[k'].queue;
      var i := FirstIndex(queue, id);
      if i < |queue| {
        WithdrawnFromIs(s, id, mode, k', queue, i);
        WithdrawKeepsQueue(s.calls, queue, i, k', s.control.queues[k].queue, k);
      }
    }
  }

  lemma WithdrawSeenBy(s: System, limits: map<Kind, int>, id: Id, mode: Mode, k: Kind)
    requires Conserved(s, limits) && k in limits
    ensures WithdrawnFrom(s, id, mode).control.queues.Keys == limits.Keys
    ensures WithdrawSeen(s, WithdrawnFrom(s, id, mode), k, Overgrants(s, id, mode) && KindOf(mode) == Some(k))
  {
    assert QueueMatches(s.calls, s.control.queues[k].queue, k);
    if KindOf(mode) != Some(k) {
      WithdrawSeenByOther(s, id, mode, k);
    } else if Limits(s.control, mode) {
      WithdrawSeenBySame(s, id, mode, k);
    }
  }

  lemma WithdrawnFromIs(s: System, id: Id, mode: Mode, k: Kind, queue: seq<Waiter>, i: nat)
    requires Limits(s.control, mode) && KindOf(mode) == Some(k) && queue == s.control.queues[k].queue
    requires i == FirstIndex(queue, id) && i < |queue|
    ensures var rest := queue[..i] + queue[i + 1..];
            var dropped := WithPhase(s.calls, queue[i].ticket, Dropped);
            WithdrawnFrom(s, id, mode) == System(
              s.control.(queues := s.control.queues[k :=
                QueueState(s.control.queues[k].capacity + 1, if rest == [] then rest else rest[1..])]),
              if rest == [] then dropped else WithPhase(dropped, rest[0].ticket, Granted),
              s.active)
  {
  }

  lemma WithdrawKeepsConserved(s: System, limits: map<Kind, int>, id: Id, mode: Mode)
    requires Conserved(s, limits)
    ensures Conserved(WithdrawnFrom(s, id, mode), limits)
  {
    var s' := WithdrawnFrom(s, id, mode);
    assert s'.control.queues.Keys == limits.Keys;
    forall k | k in limits
      ensures QueueMatches(s'.calls, s'.control.queues[k].queue, k)
      ensures s'.control.enabled ==>
        && s'.control.queues[k].capacity == limits[k] - |s'.control.queues[k].queue| - Held(s'.calls, k)
        && (s'.control.queues[k].queue != [] ==> Held(s'.calls, k) >= limits[k])
    {
      WithdrawSeenBy(s, limits, id, mode, k);
    }
  }

  /** Removing a waiter that holds no permit hands a place to the next waiter all the same. */
  ghost predicate Overgrants(s: System, id: Id, mode: Mode) {
    && Limits(s.control, mode)
    && var queue := s.control.queues[KindOf(mode).value].queue;
       FirstIndex(queue, id) < |queue| && |queue| >= 2
  }

  lemma WithdrawKeepsNoneLost(s: System, limits: map<Kind, int>, id: Id, mode: Mode)
    requires Good(s, limits)
    ensures NoneLost(WithdrawnFrom(s, id, mode))
  {
    var s' := WithdrawnFrom(s, id, mode);
    if Limits(s.control, mode) {
      var k := KindOf(mode).value;
      var queue := s.control.queues[k].queue;
      var i := FirstIndex(queue, id);
      if i < |queue| {
        var rest := queue[..i] + queue[i + 1..];
        forall u | 0 <= u < |s'.calls| && s'.calls[u].phase.Waiting?
          ensures KindOf(s'.calls[u].mode).Some? && KindOf(s'.calls[u].mode).value in s'.control.queues
          ensures IsQueued(s'.control.queues[KindOf(s'.calls[u].mode).value].queue, u)
        {
          assert s.calls[u] == s'.calls[u];
          if KindOf(s.calls[u].mode) == Some(k) {
            InRest(queue, i, u);
            if rest != [] {
              InTail(rest, u);
            }
          }
        }
      }
    }
  }

  lemma StepKeepsGood(s: System, limits: map<Kind, int>, e: Event)
    requires Good(s, limits)
    ensures Good(Step(s, e), limits)
  {
    match e
    case Add(id, mode) =>
      AddKeepsConserved(s, limits, id, mode);
      AddKeepsNoneLost(s, id, mode);
    case Fail(t) =>
      if InPhase(s, t, Granted) {
        PhaseChangeKeepsGood(s, limits, t, Failed, s.active);
      }
    case Insert(t) =>
      if InPhase(s, t, Granted) {
        PhaseChangeKeepsGood(s, limits, t, Running, s.active[s.calls[t].id := t]);
      }
    case Stop(id) =>
      if id in s.active && InPhase(s, s.active[id], Running) {
        PhaseChangeKeepsGood(s, limits, s.active[id], Settled(Cancelled), s.active);
      }
    case Finalize(id) =>
      if id in s.active && InPhase(s, s.active[id], Running) {
        PhaseChangeKeepsGood(s, limits, s.active[id], Settled(Finished), s.active);
      }
    case CleanUp(t) =>
      CleanUpKeepsConserved(s, limits, t);
      CleanUpKeepsNoneLost(s, limits, t);
    case Remove(id, mode) =>
      WithdrawKeepsConserved(s, limits, id, mode);
      WithdrawKeepsNoneLost(s, limits, id, mode);
    case Disable =>
  }

  ghost function Initial(regular: bool, productionLimit: int, evaluationLimit: int): System {
    System(InitialControl(regular, productionLimit, evaluationLimit), [], map[])
  }

  /** The limits in force: one for each queue that exists. */
  ghost function LimitsInForce(regular: bool, productionLimit: int, evaluationLimit: int): map<Kind, int> {
    var c := InitialControl(regular, productionLimit, evaluationLimit);
    map k | k in c.queues :: if k.ProductionQueue? then productionLimit else evaluationLimit
  }

  /** In every reachable state, for every interleaving and with failures of the database
      calls counted as permits that are never given back, the permits add up. */
  lemma {:induction false} PermitsAreConserved(s: System, limits: map<Kind, int>, events: seq<Event>)
    requires Good(s, limits)
    ensures Good(Run(s, events), limits)
    decreases |events|
  {
    if events == [] {
    } else {
      StepKeepsGood(s, limits, events[0]);
      PermitsAreConserved(Step(s, events[0]), limits, events[1..]);
    }
  }

  lemma PermitsAreConservedFromTheStart(
    regular: bool, productionLimit: int, evaluationLimit: int, events: seq<Event>)
    ensures Good(Run(Initial(regular, productionLimit, evaluationLimit), events),
                 LimitsInForce(regular, productionLimit, evaluationLimit))
  {
    PermitsAreConserved(Initial(regular, productionLimit, evaluationLimit),
                        LimitsInForce(regular, productionLimit, evaluationLimit), events);
  }
}
