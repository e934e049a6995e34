/** The permit queue and the worker reservation, changed in place. */
module AdmissionQueues {
  import opened Entries
  import opened Admissions

  datatype Refusal = Aborted | WaitTimedOut | QueueFull

  /** What `acquire` answers: a permit at once, a place in the queue, or a rejection. */
  datatype Answer = Permit(ticket: Ticket) | Place(ticket: Ticket) | Refused(reason: Refusal)

  class AdmissionQueue {
    const capacity: nat
    const maxQueued: nat
    var activeSlots: int
    var waiters: seq<Waiter>
    var settled: set<Ticket>
    var held: set<Ticket>
    var next: Ticket
    var waitCount: nat
    var waitTotal: real
    var waitMax: real
    var cancelled: nat
    var timedOut: nat
    ghost var history: seq<Event>
    ghost var waits: seq<real>

    ghost function State(): Gate
      reads this
    {
      Gate(capacity, maxQueued, activeSlots, waiters, settled, held, next,
           waitCount, waitTotal, waitMax, cancelled, timedOut, history, waits)
    }

    ghost predicate Valid()
      reads this
    {
      Fair(State())
    }

    constructor (capacity: nat, maxQueued: nat)
      ensures Valid() && State() == Opened(capacity, maxQueued)
    {
      this.capacity, this.maxQueued := capacity, maxQueued;
      activeSlots, waiters, settled, held, next := 0, [], {}, {}, 0;
      waitCount, waitTotal, waitMax, cancelled, timedOut := 0, 0.0, 0.0, 0, 0;
      history, waits := [], [];
      new;
      OpenedIsFair(capacity, maxQueued);
    }

    /** A request that arrives aborted or out of time is refused even when a slot is free, and one is
        never served before those that wait. */
    method Acquire(aborted: bool, timeout: Timeout, now: Instant) returns (answer: Answer)
      requires Valid()
      modifies this
      ensures Valid() && State() == Enter(old(State()), aborted, timeout, now)
      ensures answer == AnswerTo(old(State()), aborted, timeout)
      // A request that is live and in time gets a permit, a place, or hears that all are taken.
      ensures !aborted && InTime(timeout) ==>
                && (answer.Permit? <==> |old(held)| < capacity)
                && (answer.Place? <==> |old(held)| == capacity && |old(waiters)| < maxQueued)
                && (answer == Refused(QueueFull) <==> |old(held)| == capacity && |old(waiters)| == maxQueued)
      ensures aborted || !InTime(timeout) ==> answer == Refused(if aborted then Aborted else WaitTimedOut)
    {
      LiveRequestsAreServed(State(), timeout, now);
      EnterKeepsFair(State(), aborted, timeout, now);
      answer := Request(aborted, timeout, now);
    }

    method Request(aborted: bool, timeout: Timeout, now: Instant) returns (answer: Answer)
      modifies this
      ensures State() == Enter(old(State()), aborted, timeout, now)
      ensures answer == AnswerTo(old(State()), aborted, timeout)
    {
      if aborted {
        cancelled := cancelled + 1;
        return Refused(Aborted);
      }
      if Expired(timeout) {
        timedOut := timedOut + 1;
        return Refused(WaitTimedOut);
      }
      var ticket := next;
      if activeSlots < capacity && |waiters| == 0 {
        activeSlots, next, held := activeSlots + 1, next + 1, held + {ticket};
        history := history + [Arrived(ticket)] + [Granted(ticket)];
        return Permit(ticket);
      }
      if |waiters| >= maxQueued { return Refused(QueueFull); }
      waiters, next := waiters + [Waiter(ticket, now)], next + 1;
      history := history + [Arrived(ticket)];
      return Place(ticket);
    }

    method RecordWaitOf(waiter: Waiter, now: Instant)
      modifies this`waitCount, this`waitTotal, this`waitMax, this`waits
      ensures State() == RecordWait(old(State()), waiter.queuedAt, now)
    {
      var ms := Elapsed(waiter.queuedAt, now);
      waitCount, waitTotal, waitMax := waitCount + 1, waitTotal + ms, Larger(waitMax, ms);
      waits := waits + [ms];
    }

    /** The slot never becomes free while someone waits: it passes on, and `activeSlots` stays. */
    method PassSlot(now: Instant)
      modifies this
      ensures State() == ReleaseSlot(old(State()), now)
      ensures activeSlots == if old(waiters) == [] then old(activeSlots) - 1 else old(activeSlots)
    {
      if |waiters| > 0 {
        var first := waiters[0];
        waiters := waiters[1..];
        settled := settled + {first.ticket};
        RecordWaitOf(first, now);
        held := held + {first.ticket};
        history := history + [Granted(first.ticket)];
      } else {
        activeSlots := activeSlots - 1;
      }
    }

    /** The function that a permit's holder calls. */
    method ReleasePermit(ticket: Ticket, now: Instant)
      requires Valid()
      modifies this
      ensures Valid() && State() == Release(old(State()), ticket, now)
      ensures ticket !in held
      ensures ticket !in old(held) ==> State() == old(State())
    {
      ReleaseKeepsFair(State(), ticket, now);
      if ticket in held {
        ReturnedForGood(State(), ticket, now);
        held := held - {ticket};
        history := history + [Returned(ticket)];
        PassSlot(now);
      }
    }

    /** What an abort listener or an expired timer does; nothing once the waiter was served. */
    method CancelWaiter(ticket: Ticket, ending: Ending, now: Instant)
      requires Valid()
      modifies this
      ensures Valid() && State() == Cancel(old(State()), ticket, ending, now)
    {
      CancelKeepsFair(State(), ticket, ending, now);
      Withdraw(ticket, ending, now);
    }

    method Withdraw(ticket: Ticket, ending: Ending, now: Instant)
      modifies this
      ensures State() == Cancel(old(State()), ticket, ending, now)
    {
      if ticket in settled { return; }
      var i := PositionOf(waiters, ticket);
      if i < 0 { return; }
      var waiter := waiters[i];
      waiters := waiters[..i] + waiters[i + 1..];
      settled := settled + {ticket};
      RecordWaitOf(waiter, now);
      if ending == Cancelled { cancelled := cancelled + 1; } else { timedOut := timedOut + 1; }
      history := history + [Dropped(ticket, ending)];
    }
  }

  function AnswerTo(gate: Gate, aborted: bool, timeout: Timeout): Answer {
    if aborted then Refused(Aborted)
    else if Expired(timeout) then Refused(WaitTimedOut)
    else if AdmitsNow(gate) then Permit(gate.next)
    else if |gate.waiters| >= gate.maxQueued then Refused(QueueFull)
    else Place(gate.next)
  }

  /** A request may wait if it names no limit, or a limit in the future. */
  predicate InTime(timeout: Timeout) {
    match timeout
    case Unlimited => true
    case Within(ms) => ms > 0.0
    case NotFinite => false
  }

  /** Whoever is live and in time is served as long as a permit is left, queued as long as a place is,
      and refused only when there is neither; nobody waits while a permit is left. */
  lemma {:induction false} LiveRequestsAreServed(gate: Gate, timeout: Timeout, now: Instant)
    requires Fair(gate)
    ensures InTime(timeout) ==>
              var answer, after := AnswerTo(gate, false, timeout), Enter(gate, false, timeout, now);
              && (|gate.held| < gate.capacity <==> answer.Permit?) && (answer.Permit? ==> answer.ticket in after.held)
              && (|gate.held| == gate.capacity && |gate.waiters| < gate.maxQueued <==> answer.Place?)
              && (answer.Place? ==> Waiting(after, answer.ticket))
              && (|gate.held| == gate.capacity && |gate.waiters| == gate.maxQueued <==> answer == Refused(QueueFull))
    ensures !InTime(timeout) ==> AnswerTo(gate, false, timeout) == Refused(WaitTimedOut)
    ensures AnswerTo(gate, true, timeout) == Refused(Aborted)
  {
    AnswersMeanWhatTheySay(gate, false, timeout, now);
  }

  /** A permit is new and held; a refusal leaves nothing behind; the queue refuses exactly when every
      permit is out and every place is taken; a place is given only while every permit is out. */
  lemma {:induction false} AnswersMeanWhatTheySay(gate: Gate, aborted: bool, timeout: Timeout, now: Instant)
    requires Fair(gate)
    ensures var answer, after := AnswerTo(gate, aborted, timeout), Enter(gate, aborted, timeout, now);
            && (answer.Permit? ==> answer.ticket !in gate.held && after.held == gate.held + {answer.ticket})
            && (answer.Place? ==> |gate.held| == gate.capacity && Waiting(after, answer.ticket) && after.held == gate.held)
            && (answer.Refused? ==> after.history == gate.history && after.held == gate.held && after.waiters == gate.waiters)
            && (answer == Refused(QueueFull) <==>
                !aborted && !Expired(timeout) && |gate.held| == gate.capacity && |gate.waiters| == gate.maxQueued)
  {
    ArrivalIsNew(gate);
    if AnswerTo(gate, aborted, timeout).Place? {
      var after := Enter(gate, aborted, timeout, now);
      assert Tickets(after.waiters)[|gate.waiters|] == gate.next;
    }
  }

  /** A late abort or timeout of a request that was already served changes nothing; otherwise it takes
      exactly that request out, and never a permit. */
  lemma {:induction false} CancelTakesOnlyWaiters(gate: Gate, ticket: Ticket, ending: Ending, now: Instant)
    requires Fair(gate)
    ensures var after := Cancel(gate, ticket, ending, now);
            && after.held == gate.held && after.activeSlots == gate.activeSlots
            && (!Waiting(gate, ticket) ==> after == gate)
            && (Waiting(gate, ticket) ==>
                  !Waiting(after, ticket) && after.history == gate.history + [Dropped(ticket, ending)]
                  && |after.waiters| == |gate.waiters| - 1)
  {
    var i := PositionOf(gate.waiters, ticket);
    if i >= 0 { assert Tickets(gate.waiters)[i] == ticket; }
    if Waiting(gate, ticket) {
      assert ticket !in gate.settled;
      LeavesOne(gate, i, ending);
      var after := Cancel(gate, ticket, ending, now);
      assert after.waiters == Left(gate, i, ending).waiters;
      assert Waiting(after, ticket) == Waiting(Left(gate, i, ending), ticket);
    }
  }

  lemma {:induction false} ReturnedForGood(gate: Gate, ticket: Ticket, now: Instant)
    requires Fair(gate) && ticket in gate.held
    ensures ticket !in Release(gate, ticket, now).held
  {
    ReleaseIsIdempotent(gate, ticket, now, [], now);
    ReleaseKeepsFair(gate, ticket, now);
    assert Run(Release(gate, ticket, now), []) == Release(gate, ticket, now);
  }

  // ---------- lending the slot to a worker ----------

  datatype Denial = ExecutionSettled | ExecutionAborted | DeadlineExpired | AlreadyTransferred

  /** The reservation's two flags, and how often its permit was handed over and given back. */
  datatype Lease = Lease(transferred: bool, finalized: bool, handedOver: nat, givenBack: nat)

  const RESERVED := Lease(false, false, 0, 0)

  datatype LeaseCall = AskWorker(executionSettled: bool, aborted: bool, remainingMs: real) | Finish

  function WhyDenied(lease: Lease, executionSettled: bool, aborted: bool, remainingMs: real): Option<Denial> {
    if lease.finalized || executionSettled then Some(ExecutionSettled)
    else if aborted then Some(ExecutionAborted)
    else if remainingMs <= 0.0 then Some(DeadlineExpired)
    else if lease.transferred then Some(AlreadyTransferred)
    else None
  }

  function Advance(lease: Lease, call: LeaseCall): Lease {
    match call
    case AskWorker(executionSettled, aborted, remainingMs) =>
      if WhyDenied(lease, executionSettled, aborted, remainingMs).Some? then lease
      else lease.(transferred := true, handedOver := lease.handedOver + 1)
    case Finish =>
      if lease.finalized then lease
      else if lease.transferred then lease.(finalized := true)
      else lease.(finalized := true, givenBack := lease.givenBack + 1)
  }

  predicate LentOnce(lease: Lease) {
    && lease.handedOver == (if lease.transferred then 1 else 0)
    && lease.givenBack == (if lease.finalized && !lease.transferred then 1 else 0)
  }

  function Lend(lease: Lease, calls: seq<LeaseCall>): Lease
    decreases |calls|
  {
    if calls == [] then lease else Lend(Advance(lease, calls[0]), calls[1..])
  }

  /** Over every run the permit is handed over at most once; a finished reservation has either handed
      it over or given it back, never both and never neither; and it never changes again. */
  lemma {:induction false} LeaseNeverLeaks(calls: seq<LeaseCall>, more: seq<LeaseCall>)
    ensures var lease := Lend(RESERVED, calls);
            && lease.handedOver <= 1
            && (lease.finalized ==> lease.handedOver + lease.givenBack == 1)
            && (!lease.finalized ==> lease.givenBack == 0)
            && (lease.finalized ==> Lend(lease, more) == lease)
            && (Finish in calls ==> lease.finalized)
  {
    LendKeepsLentOnce(RESERVED, calls);
    if Lend(RESERVED, calls).finalized { FinishedStays(Lend(RESERVED, calls), more); }
  }

  lemma {:induction false} LendKeepsLentOnce(lease: Lease, calls: seq<LeaseCall>)
    requires LentOnce(lease)
    ensures LentOnce(Lend(lease, calls))
    ensures Finish in calls || lease.finalized ==> Lend(lease, calls).finalized
    decreases |calls|
  {
    if calls != [] {
      LendKeepsLentOnce(Advance(lease, calls[0]), calls[1..]);
      assert calls == [calls[0]] + calls[1..];
    }
  }

  lemma {:induction false} FinishedStays(lease: Lease, calls: seq<LeaseCall>)
    requires lease.finalized
    ensures Lend(lease, calls) == lease
    decreases |calls|
  {
    if calls != [] { FinishedStays(lease, calls[1..]); }
  }

  class WorkerReservation {
    const queue: AdmissionQueue
    const permit: Ticket
    var transferred: bool
    var finalized: bool
    ghost var handedOver: nat
    ghost var givenBack: nat

    ghost function State(): Lease
      reads this
    {
      Lease(transferred, finalized, handedOver, givenBack)
    }

    /** A permit that was given back is no longer held. */
    ghost predicate Valid()
      reads this, queue
    {
      LentOnce(State()) && queue.Valid() && (givenBack == 1 ==> permit !in queue.held)
    }

    constructor (queue: AdmissionQueue, permit: Ticket)
      requires queue.Valid()
      ensures Valid() && State() == RESERVED && this.queue == queue && this.permit == permit
    {
      this.queue, this.permit := queue, permit;
      transferred, finalized, handedOver, givenBack := false, false, 0, 0;
    }

    method AcquireWorker(executionSettled: bool, aborted: bool, remainingMs: real) returns (denial: Option<Denial>)
      requires Valid()
      modifies this
      ensures Valid() && State() == Advance(old(State()), AskWorker(executionSettled, aborted, remainingMs))
      ensures denial == WhyDenied(old(State()), executionSettled, aborted, remainingMs)
      ensures denial.None? <==> handedOver == old(handedOver) + 1
      // The first reason to deny it is named.
      ensures old(finalized) || executionSettled ==> denial == Some(ExecutionSettled)
      ensures !old(finalized) && !executionSettled && aborted ==> denial == Some(ExecutionAborted)
      ensures !old(finalized) && !executionSettled && !aborted && remainingMs <= 0.0 ==> denial == Some(DeadlineExpired)
      // A worker that is asked for in time, while the execution is live, is granted, once.
      ensures denial.None? <==> !old(finalized) && !old(transferred) && !executionSettled && !aborted && remainingMs > 0.0
    {
      if finalized || executionSettled { return Some(ExecutionSettled); }
      if aborted { return Some(ExecutionAborted); }
      if remainingMs <= 0.0 { return Some(DeadlineExpired); }
      if transferred { return Some(AlreadyTransferred); }
      transferred := true;
      handedOver := handedOver + 1;
      return None;
    }

    /** Gives the slot back unless a worker has it, once. */
    method ReleaseIfUntransferred(now: Instant)
      requires Valid()
      modifies this, queue
      ensures Valid() && State() == Advance(old(State()), Finish)
      ensures finalized && (!transferred ==> permit !in queue.held)
      ensures queue.State() == if old(finalized || transferred) then old(queue.State())
                               else Release(old(queue.State()), permit, now)
    {
      if finalized { return; }
      finalized := true;
      if !transferred {
        queue.ReleasePermit(permit, now);
        givenBack := givenBack + 1;
      }
    }
  }
}
