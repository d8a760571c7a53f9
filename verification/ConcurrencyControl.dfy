/** The queues that limit how many executions run at once, and the service that
    sends each execution mode to its queue. */
module ConcurrencyControlModel {
  import opened Options

  type Id = string

  /** The n-th call that asked to run an execution. */
  type Ticket = nat

  datatype Mode = Error | Integrated | Cli | Internal | Manual | Retry | Webhook | Trigger | Evaluation

  datatype Kind = ProductionQueue | EvaluationQueue

  /** The queue of a mode; the other modes are never limited. */
  function KindOf(mode: Mode): Option<Kind> {
    match mode
    case Webhook | Trigger => Some(ProductionQueue)
    case Evaluation => Some(EvaluationQueue)
    case _ => None
  }

  datatype Waiter = Waiter(executionId: Id, ticket: Ticket)

  /** `capacity` counts below zero while executions wait. */
  datatype QueueState = QueueState(capacity: int, queue: seq<Waiter>)

  function Enqueued(q: QueueState, w: Waiter): (QueueState, bool) {
    if q.capacity - 1 < 0 then (QueueState(q.capacity - 1, q.queue + [w]), false)
    else (QueueState(q.capacity - 1, q.queue), true)
  }

  function NextResolved(q: QueueState): (QueueState, Option<Ticket>) {
    if q.queue == [] then (q, None) else (q.(queue := q.queue[1..]), Some(q.queue[0].ticket))
  }

  function Dequeued(q: QueueState): (QueueState, Option<Ticket>) {
    NextResolved(q.(capacity := q.capacity + 1))
  }

  /** The position of the first waiter with the id, or the length of the queue. */
  function FirstIndex(queue: seq<Waiter>, id: Id): (i: nat)
    ensures i <= |queue|
    ensures i < |queue| ==> queue[i].executionId == id
    ensures forall j :: 0 <= j < i ==> queue[j].executionId != id
  {
    if queue == [] then 0
    else if queue[0].executionId == id then 0
    else FirstIndex(queue[1..], id) + 1
  }

  /** The waiter removed and, as the freed place is handed on at once, the one resolved. */
  function Removed(q: QueueState, id: Id): (QueueState, Option<Ticket>, Option<Ticket>) {
    var i := FirstIndex(q.queue, id);
    if i == |q.queue| then (q, None, None)
    else
      var (q', next) := NextResolved(QueueState(q.capacity + 1, q.queue[..i] + q.queue[i + 1..]));
      (q', Some(q.queue[i].ticket), next)
  }

  class ConcurrencyQueue {
    var capacity: int
    var queue: seq<Waiter>

    constructor (capacity: int)
      ensures State() == QueueState(capacity, [])
    {
      this.capacity, queue := capacity, [];
    }

    function State(): QueueState
      reads this
    {
      QueueState(capacity, queue)
    }

    /** Whether the execution may pass at once. */
    method Enqueue(executionId: Id, ticket: Ticket) returns (passes: bool)
      modifies this
      ensures (State(), passes) == Enqueued(old(State()), Waiter(executionId, ticket))
      ensures capacity == old(capacity) - 1 && (passes <==> old(capacity) >= 1)
      ensures queue == if passes then old(queue) else old(queue) + [Waiter(executionId, ticket)]
    {
      capacity := capacity - 1;
      if capacity < 0 {
        queue := queue + [Waiter(executionId, ticket)];
        return false;
      }
      return true;
    }

    method Dequeue() returns (resolved: Option<Ticket>)
      modifies this
      ensures (State(), resolved) == Dequeued(old(State()))
      ensures capacity == old(capacity) + 1
      ensures if old(queue) == [] then queue == [] && resolved == None
              else queue == old(queue)[1..] && resolved == Some(old(queue)[0].ticket)
    {
      capacity := capacity + 1;
      resolved := ResolveNext();
    }

    method Remove(executionId: Id) returns (removed: Option<Ticket>, resolved: Option<Ticket>)
      modifies this
      ensures (State(), removed, resolved) == Removed(old(State()), executionId)
      ensures var i := FirstIndex(old(queue), executionId);
              if i == |old(queue)| then State() == old(State()) && removed == None && resolved == None
              else
                var rest := old(queue)[..i] + old(queue)[i + 1..];
                && capacity == old(capacity) + 1 && removed == Some(old(queue)[i].ticket)
                && (if rest == [] then queue == [] && resolved == None
                    else queue == rest[1..] && resolved == Some(rest[0].ticket))
    {
      removed, resolved := None, None;
      var index := FirstIndex(queue, executionId);
      if index < |queue| {
        removed := Some(queue[index].ticket);
        queue := queue[..index] + queue[index + 1..];
        capacity := capacity + 1;
        resolved := ResolveNext();
      }
    }

    /** Removes each id that waits at the start; a removal resolves the next waiter, who may be one of them. */
    method RemoveEach() returns (removed: seq<Ticket>, resolved: seq<Ticket>)
      modifies this
    {
      removed, resolved := [], [];
      var ids := set w | w in queue :: w.executionId;
      while ids != {}
        decreases ids
      {
        var id :| id in ids;
        var gone, next := Remove(id);
        removed := if gone.Some? then removed + [gone.value] else removed;
        resolved := if next.Some? then resolved + [next.value] else resolved;
        ids := ids - {id};
      }
    }

    method ResolveNext() returns (resolved: Option<Ticket>)
      modifies this
      ensures (State(), resolved) == NextResolved(old(State()))
    {
      if queue == [] {
        return None;
      }
      resolved := Some(queue[0].ticket);
      queue := queue[1..];
    }
  }

  // ---------- the service ----------

  /** The queues that exist: one for each kind whose limit is positive. */
  datatype ControlState = ControlState(enabled: bool, queues: map<Kind, QueueState>)

  ghost predicate Limits(c: ControlState, mode: Mode) {
    c.enabled && KindOf(mode).Some? && KindOf(mode).value in c.queues
  }

  ghost function Throttled(c: ControlState, mode: Mode, w: Waiter): (ControlState, bool) {
    if !Limits(c, mode) then (c, true)
    else
      var k := KindOf(mode).value;
      var (q, passes) := Enqueued(c.queues[k], w);
      (c.(queues := c.queues[k := q]), passes)
  }

  ghost function Released(c: ControlState, mode: Mode): (ControlState, Option<Ticket>) {
    if !Limits(c, mode) then (c, None)
    else
      var k := KindOf(mode).value;
      var (q, resolved) := Dequeued(c.queues[k]);
      (c.(queues := c.queues[k := q]), resolved)
  }

  ghost function Withdrawn(c: ControlState, mode: Mode, id: Id): (ControlState, Option<Ticket>, Option<Ticket>) {
    if !Limits(c, mode) then (c, None, None)
    else
      var k := KindOf(mode).value;
      var (q, removed, resolved) := Removed(c.queues[k], id);
      (c.(queues := c.queues[k := q]), removed, resolved)
  }

  class ConcurrencyControl {
    var isEnabled: bool
    const production: ConcurrencyQueue?
    const evaluation: ConcurrencyQueue?

    ghost predicate Valid()
    {
      production != null ==> production != evaluation
    }

    ghost function Queues(): set<ConcurrencyQueue>
    {
      (if production == null then {} else {production}) + (if evaluation == null then {} else {evaluation})
    }

    ghost function State(): ControlState
      reads this, Queues()
    {
      ControlState(isEnabled,
                   (if production == null then map[] else map[ProductionQueue := production.State()])
                   + (if evaluation == null then map[] else map[EvaluationQueue := evaluation.State()]))
    }

    /** Limits of -1 and below mean unlimited. Nothing is limited outside the regular
        mode of running executions. */
    constructor (regular: bool, productionLimit: int, evaluationLimit: int)
      requires productionLimit != 0 && evaluationLimit != 0
      ensures Valid() && fresh(Queues())
      ensures State() == InitialControl(regular, productionLimit, evaluationLimit)
    {
      if (productionLimit <= -1 && evaluationLimit <= -1) || !regular {
        isEnabled, production, evaluation := false, null, null;
      } else {
        isEnabled := true;
        if productionLimit > 0 {
          production := new ConcurrencyQueue(productionLimit);
        } else {
          production := null;
        }
        if evaluationLimit > 0 {
          evaluation := new ConcurrencyQueue(evaluationLimit);
        } else {
          evaluation := null;
        }
      }
    }

    /** The modes webhook and trigger share the production queue, evaluations have their own, and no
        other mode has one. */
    function QueueOf(mode: Mode): (queue: ConcurrencyQueue?)
      ensures queue == if mode == Webhook || mode == Trigger then production
                       else if mode == Evaluation then evaluation else null
    {
      match KindOf(mode)
      case None => null
      case Some(ProductionQueue) => production
      case Some(EvaluationQueue) => evaluation
    }

    method Throttle(mode: Mode, executionId: Id, ticket: Ticket) returns (passes: bool)
      requires Valid()
      modifies Queues()
      ensures (State(), passes) == Throttled(old(State()), mode, Waiter(executionId, ticket))
      ensures if old(isEnabled) && QueueOf(mode) != null
              then (QueueOf(mode).State(), passes) == Enqueued(old(QueueOf(mode).State()), Waiter(executionId, ticket))
              else State() == old(State()) && passes
      ensures forall q :: q in Queues() && q != QueueOf(mode) ==> q.State() == old(q.State())
    {
      if !isEnabled || QueueOf(mode) == null {
        return true;
      }
      passes := QueueOf(mode).Enqueue(executionId, ticket);
      assert State().queues == old(State().queues)[KindOf(mode).value := QueueOf(mode).State()];
    }

    method Release(mode: Mode) returns (resolved: Option<Ticket>)
      requires Valid()
      modifies Queues()
      ensures (State(), resolved) == Released(old(State()), mode)
      ensures if old(isEnabled) && QueueOf(mode) != null
              then (QueueOf(mode).State(), resolved) == Dequeued(old(QueueOf(mode).State()))
              else State() == old(State()) && resolved.None?
      ensures forall q :: q in Queues() && q != QueueOf(mode) ==> q.State() == old(q.State())
    {
      if !isEnabled || QueueOf(mode) == null {
        return None;
      }
      resolved := QueueOf(mode).Dequeue();
      assert State().queues == old(State().queues)[KindOf(mode).value := QueueOf(mode).State()];
    }

    method Remove(mode: Mode, executionId: Id) returns (removed: Option<Ticket>, resolved: Option<Ticket>)
      requires Valid()
      modifies Queues()
      ensures (State(), removed, resolved) == Withdrawn(old(State()), mode, executionId)
      ensures if old(isEnabled) && QueueOf(mode) != null
              then (QueueOf(mode).State(), removed, resolved) == Removed(old(QueueOf(mode).State()), executionId)
              else State() == old(State()) && removed.None? && resolved.None?
      ensures forall q :: q in Queues() && q != QueueOf(mode) ==> q.State() == old(q.State())
    {
      if !isEnabled || QueueOf(mode) == null {
        return None, None;
      }
      removed, resolved := QueueOf(mode).Remove(executionId);
      assert State().queues == old(State().queues)[KindOf(mode).value := QueueOf(mode).State()];
    }

    /** Withdraws everyone who waits. Once the control is disabled this does nothing. */
    method RemoveAll() returns (removed: seq<Ticket>, resolved: seq<Ticket>)
      requires Valid()
      modifies Queues()
      ensures !old(isEnabled) ==> State() == old(State()) && removed == [] && resolved == []
    {
      removed, resolved := [], [];
      if !isEnabled {
        return;
      }
      if production != null {
        removed, resolved := production.RemoveEach();
      }
      if evaluation != null {
        var more, moreResolved := evaluation.RemoveEach();
        removed, resolved := removed + more, resolved + moreResolved;
      }
    }

    method Disable()
      requires Valid()
      modifies this
      ensures State() == old(State()).(enabled := false)
      ensures !isEnabled
    {
      isEnabled := false;
    }
  }

  /** A limit of 0 is an error. */
  method CreateConcurrencyControl(regular: bool, productionLimit: int, evaluationLimit: int)
    returns (control: Option<ConcurrencyControl>)
    ensures control.None? <==> productionLimit == 0 || evaluationLimit == 0
    ensures control.Some? ==> control.value.Valid()
    ensures control.Some? ==> control.value.State() == InitialControl(regular, productionLimit, evaluationLimit)
    ensures control.Some? ==>
              (control.value.isEnabled <==> regular && (productionLimit > 0 || evaluationLimit > 0))
  {
    if productionLimit == 0 || evaluationLimit == 0 {
      return None;
    }
    var created := new ConcurrencyControl(regular, productionLimit, evaluationLimit);
    control := Some(created);
  }

  ghost function InitialControl(regular: bool, productionLimit: int, evaluationLimit: int): ControlState {
    if (productionLimit <= -1 && evaluationLimit <= -1) || !regular then ControlState(false, map[])
    else
      ControlState(true,
                   (if productionLimit > 0 then map[ProductionQueue := QueueState(productionLimit, [])] else map[])
                   + (if evaluationLimit > 0 then map[EvaluationQueue := QueueState(evaluationLimit, [])] else map[]))
  }
}
