/** The bounded first-in first-out permit queue, as a value: one function per call, the history the
    calls leave behind, and what every history satisfies. */
module Admissions {
  import opened Sequences

  type Ticket = nat

  /** A reading of the injected clock, which need not be a finite number. */
  datatype Instant = At(ms: real) | NoInstant

  datatype Timeout = Unlimited | Within(ms: real) | NotFinite

  datatype Ending = Cancelled | TimedOut

  datatype Waiter = Waiter(ticket: Ticket, queuedAt: Instant)

  datatype Event =
    | Arrived(ticket: Ticket)
    | Granted(ticket: Ticket)
    | Dropped(ticket: Ticket, ending: Ending)
    | Returned(ticket: Ticket)

  /** `held` are the permits whose release function has not been called yet, `settled` the waiters
      whose flag is set. The last two fields only record what happened. */
  datatype Gate = Gate(
    capacity: nat, maxQueued: nat, activeSlots: int, waiters: seq<Waiter>,
    settled: set<Ticket>, held: set<Ticket>, next: Ticket,
    waitCount: nat, waitTotal: real, waitMax: real, cancelled: nat, timedOut: nat,
    history: seq<Event>, waits: seq<real>)

  function Opened(capacity: nat, maxQueued: nat): Gate {
    Gate(capacity, maxQueued, 0, [], {}, {}, 0, 0, 0.0, 0.0, 0, 0, [], [])
  }

  // ---------- the calls ----------

  predicate Expired(timeout: Timeout) {
    timeout == NotFinite || (timeout.Within? && timeout.ms <= 0.0)
  }

  predicate AdmitsNow(gate: Gate) {
    gate.activeSlots < gate.capacity && gate.waiters == []
  }

  function Enter(gate: Gate, aborted: bool, timeout: Timeout, now: Instant): Gate {
    if aborted then gate.(cancelled := gate.cancelled + 1)
    else if Expired(timeout) then gate.(timedOut := gate.timedOut + 1)
    else if AdmitsNow(gate) then
      gate.(activeSlots := gate.activeSlots + 1, held := gate.held + {gate.next}, next := gate.next + 1,
            history := gate.history + [Arrived(gate.next)] + [Granted(gate.next)])
    else if |gate.waiters| >= gate.maxQueued then gate
    else
      gate.(waiters := gate.waiters + [Waiter(gate.next, now)], next := gate.next + 1,
            history := gate.history + [Arrived(gate.next)])
  }

  /** How long a waiter waited; a clock that went backwards or is not finite counts as no wait. */
  function Elapsed(since: Instant, now: Instant): (ms: real)
    ensures ms >= 0.0
    ensures since.At? && now.At? && now.ms >= since.ms ==> since.ms + ms == now.ms
    ensures since.NoInstant? || now.NoInstant? || now.ms < since.ms ==> ms == 0.0
  {
    if since.At? && now.At? && now.ms >= since.ms then now.ms - since.ms else 0.0
  }

  function Larger(a: real, b: real): real { if a >= b then a else b }

  function RecordWait(gate: Gate, since: Instant, now: Instant): Gate {
    var ms := Elapsed(since, now);
    gate.(waitCount := gate.waitCount + 1, waitTotal := gate.waitTotal + ms,
          waitMax := Larger(gate.waitMax, ms), waits := gate.waits + [ms])
  }

  /** A freed slot goes to the first waiter, or back to the pool. */
  function ReleaseSlot(gate: Gate, now: Instant): Gate {
    if gate.waiters == [] then gate.(activeSlots := gate.activeSlots - 1)
    else
      var first := gate.waiters[0];
      RecordWait(gate, first.queuedAt, now).(
        waiters := gate.waiters[1..], settled := gate.settled + {first.ticket}, held := gate.held + {first.ticket},
        history := gate.history + [Granted(first.ticket)])
  }

  function Release(gate: Gate, ticket: Ticket, now: Instant): Gate {
    if ticket !in gate.held then gate
    else ReleaseSlot(gate.(held := gate.held - {ticket}, history := gate.history + [Returned(ticket)]), now)
  }

  function Tickets(waiters: seq<Waiter>): (tickets: seq<Ticket>)
    ensures |tickets| == |waiters|
    ensures forall i :: 0 <= i < |waiters| ==> tickets[i] == waiters[i].ticket
  {
    seq(|waiters|, i requires 0 <= i < |waiters| => waiters[i].ticket)
  }

  function PositionOf(waiters: seq<Waiter>, ticket: Ticket): (i: int)
    ensures i == -1 ==> ticket !in Tickets(waiters)
    ensures i != -1 ==> 0 <= i < |waiters| && waiters[i].ticket == ticket
    ensures forall j :: 0 <= j < i ==> waiters[j].ticket != ticket
  {
    if waiters == [] then -1
    else if waiters[0].ticket == ticket then 0
    else
      var rest := PositionOf(waiters[1..], ticket);
      assert forall j :: 0 < j < |waiters| ==> Tickets(waiters)[j] == Tickets(waiters[1..])[j - 1];
      assert forall j :: 0 < j < 1 + rest ==> waiters[j] == waiters[1..][j - 1];
      if rest < 0 then -1 else 1 + rest
  }

  function Cancel(gate: Gate, ticket: Ticket, ending: Ending, now: Instant): Gate {
    if ticket in gate.settled then gate
    else
      var i := PositionOf(gate.waiters, ticket);
      if i < 0 then gate
      else
        RecordWait(gate, gate.waiters[i].queuedAt, now).(
          waiters := gate.waiters[..i] + gate.waiters[i + 1..], settled := gate.settled + {ticket},
          cancelled := gate.cancelled + (if ending == Cancelled then 1 else 0),
          timedOut := gate.timedOut + (if ending == TimedOut then 1 else 0),
          history := gate.history + [Dropped(ticket, ending)])
  }

  // ---------- what a history says ----------

  function ArrivedIn(history: seq<Event>): seq<Ticket> {
    if history == [] then []
    else
      var init, last := history[..|history| - 1], history[|history| - 1];
      ArrivedIn(init) + if last.Arrived? then [last.ticket] else []
  }

  function GrantedIn(history: seq<Event>): seq<Ticket> {
    if history == [] then []
    else
      var init, last := history[..|history| - 1], history[|history| - 1];
      GrantedIn(init) + if last.Granted? then [last.ticket] else []
  }

  function DroppedIn(history: seq<Event>): set<Ticket> {
    set i | 0 <= i < |history| && history[i].Dropped? :: history[i].ticket
  }

  /** How often a request was answered. */
  function Settlements(history: seq<Event>, ticket: Ticket): nat {
    if history == [] then 0
    else
      var init, last := history[..|history| - 1], history[|history| - 1];
      Settlements(init, ticket) + if (last.Granted? || last.Dropped?) && last.ticket == ticket then 1 else 0
  }

  /** How often a permit's slot came back. */
  function Returns(history: seq<Event>, ticket: Ticket): nat {
    if history == [] then 0
    else
      var init, last := history[..|history| - 1], history[|history| - 1];
      Returns(init, ticket) + if last == Returned(ticket) then 1 else 0
  }

  lemma {:induction false} OneMoreEvent(history: seq<Event>, event: Event)
    ensures ArrivedIn(history + [event]) ==
            if event.Arrived? then ArrivedIn(history) + [event.ticket] else ArrivedIn(history)
    ensures GrantedIn(history + [event]) ==
            if event.Granted? then GrantedIn(history) + [event.ticket] else GrantedIn(history)
    ensures DroppedIn(history + [event]) ==
            if event.Dropped? then DroppedIn(history) + {event.ticket} else DroppedIn(history)
  {
    var longer := history + [event];
    assert longer[..|longer| - 1] == history && longer[|longer| - 1] == event;
    forall t | t in DroppedIn(history) ensures t in DroppedIn(longer) {
      var i :| 0 <= i < |history| && history[i].Dropped? && history[i].ticket == t;
      assert longer[i] == history[i];
    }
    if event.Dropped? { assert longer[|history|].ticket in DroppedIn(longer); }
  }

  lemma {:induction false} OneMoreAnswer(history: seq<Event>, event: Event, ticket: Ticket)
    ensures Settlements(history + [event], ticket) ==
            Settlements(history, ticket) + if (event.Granted? || event.Dropped?) && event.ticket == ticket then 1 else 0
    ensures Returns(history + [event], ticket) == Returns(history, ticket) + if event == Returned(ticket) then 1 else 0
  {
    var longer := history + [event];
    assert longer[..|longer| - 1] == history && longer[|longer| - 1] == event;
  }

  /** `tickets` without the ones in `gone`, in the same order. */
  function Without(tickets: seq<Ticket>, gone: set<Ticket>): seq<Ticket> {
    if tickets == [] then []
    else
      var init, last := tickets[..|tickets| - 1], tickets[|tickets| - 1];
      Without(init, gone) + if last in gone then [] else [last]
  }

  lemma {:induction false} WithoutConcat(a: seq<Ticket>, b: seq<Ticket>, gone: set<Ticket>)
    ensures Without(a + b, gone) == Without(a, gone) + Without(b, gone)
  {
    if b == [] {
      assert a + b == a;
    } else {
      var init, last := b[..|b| - 1], b[|b| - 1];
      assert (a + b)[..|a + b| - 1] == a + init && (a + b)[|a + b| - 1] == last;
      WithoutConcat(a, init, gone);
    }
  }

  lemma {:induction false} WithoutMore(tickets: seq<Ticket>, gone: set<Ticket>, one: Ticket)
    ensures Without(tickets, gone + {one}) == Without(Without(tickets, gone), {one})
  {
    if tickets != [] {
      var init, last := tickets[..|tickets| - 1], tickets[|tickets| - 1];
      WithoutMore(init, gone, one);
      WithoutConcat(Without(init, gone), if last in gone then [] else [last], {one});
      assert Without([], {one}) == [];
      assert Without([last], {one}) == if last == one then [] else [last] by {
        assert [last][..0] == [];
      }
    }
  }

  lemma {:induction false} WithoutAbsent(tickets: seq<Ticket>, gone: set<Ticket>)
    requires forall i :: 0 <= i < |tickets| ==> tickets[i] !in gone
    ensures Without(tickets, gone) == tickets
  {
    if tickets != [] { WithoutAbsent(tickets[..|tickets| - 1], gone); }
  }

  lemma {:induction false} WithoutKeeps(tickets: seq<Ticket>, gone: set<Ticket>)
    ensures forall t :: t in Without(tickets, gone) <==> t in tickets && t !in gone
  {
    if tickets != [] {
      WithoutKeeps(tickets[..|tickets| - 1], gone);
      InitAndLast(tickets);
    }
  }

  lemma {:induction false} WithoutStaysDistinct(tickets: seq<Ticket>, gone: set<Ticket>)
    requires Distinct(tickets)
    ensures Distinct(Without(tickets, gone))
  {
    if tickets != [] {
      var init, last := tickets[..|tickets| - 1], tickets[|tickets| - 1];
      WithoutStaysDistinct(init, gone);
      WithoutKeeps(init, gone);
      assert last !in init;
    }
  }

  lemma {:induction false} WithoutOne(tickets: seq<Ticket>, i: nat)
    requires i < |tickets| && Distinct(tickets)
    ensures Without(tickets, {tickets[i]}) == tickets[..i] + tickets[i + 1..]
  {
    var before, one, behind := tickets[..i], tickets[i], tickets[i + 1..];
    assert tickets == before + ([one] + behind);
    WithoutConcat(before, [one] + behind, {one});
    WithoutConcat([one], behind, {one});
    WithoutAbsent(before, {one});
    WithoutAbsent(behind, {one});
    WithoutItself(one);
    ConcatNothing(behind);
  }

  lemma {:induction false} WithoutItself(ticket: Ticket)
    ensures Without([ticket], {ticket}) == []
  {
    assert [ticket][..0] == [];
    assert Without([], {ticket}) == [];
  }

  // ---------- what every run keeps ----------

  /** No more permits are out than there are slots, and a request waits only when all are out. */
  predicate Slots(gate: Gate) {
    && gate.activeSlots == |gate.held|
    && gate.activeSlots <= gate.capacity
    && (gate.waiters != [] ==> gate.activeSlots == gate.capacity)
    && |gate.waiters| <= gate.maxQueued
  }

  /** Granted requests, then waiting ones, are the arrivals that were not dropped, in arrival order. */
  predicate InLine(gate: Gate) {
    && Distinct(ArrivedIn(gate.history))
    && (forall t :: t in ArrivedIn(gate.history) ==> t < gate.next)
    && DroppedIn(gate.history) <= (set t | t in ArrivedIn(gate.history))
    && GrantedIn(gate.history) + Tickets(gate.waiters) == Without(ArrivedIn(gate.history), DroppedIn(gate.history))
  }

  predicate Waiting(gate: Gate, ticket: Ticket) {
    ticket in Tickets(gate.waiters)
  }

  /** Every arrival is answered once, or not yet and then it waits; nothing else is ever answered. */
  ghost predicate AnsweredOnce(gate: Gate) {
    forall t :: Settlements(gate.history, t) ==
                if t in ArrivedIn(gate.history) && !Waiting(gate, t) then 1 else 0
  }

  /** The flags agree with the queue: a waiter's is set exactly when it has left the queue. */
  predicate Flagged(gate: Gate) {
    && (forall t :: t in gate.settled ==> t in ArrivedIn(gate.history))
    && (forall i :: 0 <= i < |gate.waiters| ==> gate.waiters[i].ticket !in gate.settled)
  }

  /** A permit is held from its grant to its one return. */
  ghost predicate ReturnedOnce(gate: Gate) {
    forall t :: Returns(gate.history, t) == if t in GrantedIn(gate.history) && t !in gate.held then 1 else 0
  }

  predicate HeldWereGranted(gate: Gate) {
    forall t :: t in gate.held ==> t in GrantedIn(gate.history)
  }

  function Sum(waits: seq<real>): real {
    if waits == [] then 0.0 else Sum(waits[..|waits| - 1]) + waits[|waits| - 1]
  }

  predicate Measured(gate: Gate) {
    && gate.waitCount == |gate.waits|
    && gate.waitTotal == Sum(gate.waits)
    && IsLargest(gate.waits, gate.waitMax)
  }

  ghost predicate Fair(gate: Gate) {
    && Slots(gate) && InLine(gate) && AnsweredOnce(gate) && Flagged(gate)
    && ReturnedOnce(gate) && HeldWereGranted(gate) && Measured(gate)
  }

  /** Total wait never exceeds count times maximum wait. */
  lemma {:induction false} TotalIsBounded(waits: seq<real>, most: real)
    requires forall i :: 0 <= i < |waits| ==> 0.0 <= waits[i] <= most
    ensures 0.0 <= Sum(waits) <= |waits| as real * most
  {
    if waits != [] {
      TotalIsBounded(waits[..|waits| - 1], most);
      assert |waits| as real * most == (|waits| - 1) as real * most + most;
    }
  }

  lemma {:induction false} OpenedIsFair(capacity: nat, maxQueued: nat)
    ensures Fair(Opened(capacity, maxQueued))
  {
    assert Without([], {}) == [];
  }

  // ---------- a request arrives ----------

  lemma {:induction false} ArrivalIsNew(gate: Gate)
    requires InLine(gate) && Flagged(gate) && HeldWereGranted(gate)
    ensures gate.next !in ArrivedIn(gate.history) && gate.next !in DroppedIn(gate.history)
    ensures gate.next !in gate.settled && gate.next !in gate.held && gate.next !in GrantedIn(gate.history)
    ensures !Waiting(gate, gate.next)
  {
    var line := GrantedIn(gate.history) + Tickets(gate.waiters);
    WithoutKeeps(ArrivedIn(gate.history), DroppedIn(gate.history));
    forall t | t in GrantedIn(gate.history) || t in Tickets(gate.waiters) ensures t in line && t != gate.next {
      if t in GrantedIn(gate.history) {
        var i :| 0 <= i < |GrantedIn(gate.history)| && GrantedIn(gate.history)[i] == t;
        assert line[i] == t;
      } else {
        var i :| 0 <= i < |gate.waiters| && Tickets(gate.waiters)[i] == t;
        assert line[|GrantedIn(gate.history)| + i] == t;
      }
    }
  }

  lemma {:induction false} WithoutNext(arrived: seq<Ticket>, dropped: set<Ticket>, ticket: Ticket)
    requires ticket !in dropped
    ensures Without(arrived + [ticket], dropped) == Without(arrived, dropped) + [ticket]
  {
    WithoutConcat(arrived, [ticket], dropped);
    WithoutAbsent([ticket], dropped);
  }

  function Queued(gate: Gate, now: Instant): Gate {
    gate.(waiters := gate.waiters + [Waiter(gate.next, now)], next := gate.next + 1,
          history := gate.history + [Arrived(gate.next)])
  }

  lemma {:induction false} QueuedInLine(gate: Gate, now: Instant)
    requires InLine(gate) && Flagged(gate) && HeldWereGranted(gate)
    ensures InLine(Queued(gate, now))
  {
    ArrivalIsNew(gate);
    OneMoreEvent(gate.history, Arrived(gate.next));
    assert Tickets(Queued(gate, now).waiters) == Tickets(gate.waiters) + [gate.next];
    ConcatAssociates(GrantedIn(gate.history), Tickets(gate.waiters), [gate.next]);
    LongerLine(gate, Queued(gate, now));
  }

  lemma {:induction false} QueuedAnswers(gate: Gate, now: Instant)
    requires InLine(gate) && Flagged(gate) && HeldWereGranted(gate) && AnsweredOnce(gate) && ReturnedOnce(gate)
    ensures AnsweredOnce(Queued(gate, now)) && ReturnedOnce(Queued(gate, now))
  {
    var event := Arrived(gate.next);
    ArrivalIsNew(gate);
    OneMoreEvent(gate.history, event);
    assert Tickets(Queued(gate, now).waiters) == Tickets(gate.waiters) + [gate.next];
    forall t ensures Settlements(gate.history + [event], t) == Settlements(gate.history, t)
             ensures Returns(gate.history + [event], t) == Returns(gate.history, t) {
      OneMoreAnswer(gate.history, event, t);
    }
  }

  lemma {:induction false} QueuedIsFair(gate: Gate, now: Instant)
    requires Fair(gate) && !AdmitsNow(gate) && |gate.waiters| < gate.maxQueued
    ensures Fair(Queued(gate, now))
  {
    ArrivalIsNew(gate);
    OneMoreEvent(gate.history, Arrived(gate.next));
    QueuedInLine(gate, now);
    QueuedAnswers(gate, now);
  }

  function Admitted(gate: Gate): Gate {
    gate.(activeSlots := gate.activeSlots + 1, held := gate.held + {gate.next}, next := gate.next + 1,
          history := gate.history + [Arrived(gate.next)] + [Granted(gate.next)])
  }

  lemma {:induction false} AdmittedAnswers(gate: Gate)
    requires InLine(gate) && Flagged(gate) && HeldWereGranted(gate) && AnsweredOnce(gate) && ReturnedOnce(gate)
    ensures AnsweredOnce(Admitted(gate)) && ReturnedOnce(Admitted(gate))
  {
    var first, second := Arrived(gate.next), Granted(gate.next);
    ArrivalIsNew(gate);
    OneMoreEvent(gate.history, first);
    OneMoreEvent(gate.history + [first], second);
    forall t ensures Settlements(Admitted(gate).history, t) ==
                     Settlements(gate.history, t) + if t == gate.next then 1 else 0
             ensures Returns(Admitted(gate).history, t) == Returns(gate.history, t) {
      OneMoreAnswer(gate.history, first, t);
      OneMoreAnswer(gate.history + [first], second, t);
    }
  }

  /** One request more at the end of the line. */
  lemma {:induction false} LongerLine(gate: Gate, after: Gate)
    requires InLine(gate) && gate.next !in ArrivedIn(gate.history) && gate.next !in DroppedIn(gate.history)
    requires after.next == gate.next + 1 && ArrivedIn(after.history) == ArrivedIn(gate.history) + [gate.next]
    requires DroppedIn(after.history) == DroppedIn(gate.history)
    requires GrantedIn(after.history) + Tickets(after.waiters) ==
             GrantedIn(gate.history) + Tickets(gate.waiters) + [gate.next]
    ensures InLine(after)
  {
    WithoutNext(ArrivedIn(gate.history), DroppedIn(gate.history), gate.next);
  }

  lemma {:induction false} AdmittedInLine(gate: Gate)
    requires InLine(gate) && Flagged(gate) && HeldWereGranted(gate) && gate.waiters == []
    ensures ArrivedIn(Admitted(gate).history) == ArrivedIn(gate.history) + [gate.next]
    ensures GrantedIn(Admitted(gate).history) == GrantedIn(gate.history) + [gate.next]
    ensures InLine(Admitted(gate))
  {
    ArrivalIsNew(gate);
    OneMoreEvent(gate.history, Arrived(gate.next));
    OneMoreEvent(gate.history + [Arrived(gate.next)], Granted(gate.next));
    ConcatNothing(GrantedIn(gate.history));
    ConcatNothing(GrantedIn(gate.history) + [gate.next]);
    LongerLine(gate, Admitted(gate));
  }

  lemma {:induction false} AdmittedIsFair(gate: Gate)
    requires Fair(gate) && AdmitsNow(gate)
    ensures Fair(Admitted(gate))
  {
    AdmittedInLine(gate);
    AdmittedAnswers(gate);
    assert Slots(Admitted(gate)) by { ArrivalIsNew(gate); }
  }

  lemma {:induction false} EnterKeepsFair(gate: Gate, aborted: bool, timeout: Timeout, now: Instant)
    requires Fair(gate)
    ensures Fair(Enter(gate, aborted, timeout, now))
  {
    if aborted || Expired(timeout) {
      assert Fair(Enter(gate, aborted, timeout, now));
    } else if AdmitsNow(gate) {
      AdmittedIsFair(gate);
    } else if |gate.waiters| < gate.maxQueued {
      QueuedIsFair(gate, now);
    }
  }

  // ---------- a waiter leaves the queue ----------

  lemma {:induction false} SumMore(waits: seq<real>, ms: real)
    ensures Sum(waits + [ms]) == Sum(waits) + ms
  {
    var longer := waits + [ms];
    assert longer[..|longer| - 1] == waits && longer[|longer| - 1] == ms;
  }

  /** `most` is the largest of the waits, or zero when there are none. */
  predicate IsLargest(waits: seq<real>, most: real) {
    && most >= 0.0
    && (forall i :: 0 <= i < |waits| ==> 0.0 <= waits[i] <= most)
    && (if waits == [] then most == 0.0 else exists i :: 0 <= i < |waits| && waits[i] == most)
  }

  lemma {:induction false} LargestOfMore(waits: seq<real>, most: real, ms: real)
    requires IsLargest(waits, most) && ms >= 0.0
    ensures IsLargest(waits + [ms], Larger(most, ms))
  {
    var longer := waits + [ms];
    assert longer[|waits|] == ms;
    if waits != [] && most >= ms {
      var i :| 0 <= i < |waits| && waits[i] == most;
      assert longer[i] == most;
    }
  }

  lemma {:induction false} RecordKeepsMeasured(gate: Gate, since: Instant, now: Instant)
    requires Measured(gate)
    ensures Measured(RecordWait(gate, since, now))
  {
    var ms := Elapsed(since, now);
    SumMore(gate.waits, ms);
    LargestOfMore(gate.waits, gate.waitMax, ms);
  }

  lemma {:induction false} LineSplit(gate: Gate)
    requires InLine(gate)
    ensures Distinct(GrantedIn(gate.history) + Tickets(gate.waiters))
    ensures forall t :: t in GrantedIn(gate.history) || Waiting(gate, t) ==>
              (t in ArrivedIn(gate.history) && t !in DroppedIn(gate.history))
    ensures forall t :: !(t in GrantedIn(gate.history) && Waiting(gate, t))
  {
    var granted, waiting := GrantedIn(gate.history), Tickets(gate.waiters);
    WithoutStaysDistinct(ArrivedIn(gate.history), DroppedIn(gate.history));
    WithoutKeeps(ArrivedIn(gate.history), DroppedIn(gate.history));
    forall t | t in granted || t in waiting ensures t in granted + waiting { }
    forall t | t in granted ensures t !in waiting {
      var i :| 0 <= i < |granted| && granted[i] == t;
      forall j | 0 <= j < |waiting| ensures waiting[j] != t {
        assert (granted + waiting)[i] == t && (granted + waiting)[|granted| + j] == waiting[j];
      }
    }
  }

  /** The gate while the freed slot belongs to nobody: one slot more than permits. */
  predicate SlotFreed(gate: Gate) {
    && gate.activeSlots == |gate.held| + 1
    && gate.activeSlots <= gate.capacity
    && (gate.waiters != [] ==> gate.activeSlots == gate.capacity)
    && |gate.waiters| <= gate.maxQueued
  }

  function Passed(gate: Gate, now: Instant): Gate
    requires gate.waiters != []
  {
    var first := gate.waiters[0];
    RecordWait(gate, first.queuedAt, now).(
      waiters := gate.waiters[1..], settled := gate.settled + {first.ticket}, held := gate.held + {first.ticket},
      history := gate.history + [Granted(first.ticket)])
  }

  lemma {:induction false} FirstTicket(waiters: seq<Waiter>, granted: seq<Ticket>)
    requires waiters != []
    ensures Tickets(waiters) == [waiters[0].ticket] + Tickets(waiters[1..])
    ensures granted + [waiters[0].ticket] + Tickets(waiters[1..]) == granted + Tickets(waiters)
  {
    assert Tickets(waiters) == [waiters[0].ticket] + Tickets(waiters[1..]);
  }

  lemma {:induction false} PassedInLine(gate: Gate, now: Instant)
    requires InLine(gate) && gate.waiters != []
    ensures ArrivedIn(Passed(gate, now).history) == ArrivedIn(gate.history)
    ensures GrantedIn(Passed(gate, now).history) == GrantedIn(gate.history) + [gate.waiters[0].ticket]
    ensures Tickets(gate.waiters) == [gate.waiters[0].ticket] + Tickets(gate.waiters[1..])
    ensures InLine(Passed(gate, now))
  {
    OneMoreEvent(gate.history, Granted(gate.waiters[0].ticket));
    FirstTicket(gate.waiters, GrantedIn(gate.history));
  }

  lemma {:induction false} PassedAnswers(gate: Gate, now: Instant)
    requires InLine(gate) && gate.waiters != [] && AnsweredOnce(gate) && ReturnedOnce(gate)
    ensures AnsweredOnce(Passed(gate, now)) && ReturnedOnce(Passed(gate, now))
  {
    var first := gate.waiters[0].ticket;
    PassedInLine(gate, now);
    LineSplit(gate);
    LineSplit(Passed(gate, now));
    assert Tickets(gate.waiters)[0] == first;
    assert first in GrantedIn(gate.history) + [first];
    forall t ensures Settlements(Passed(gate, now).history, t) == Settlements(gate.history, t) + (if t == first then 1 else 0)
             ensures Returns(Passed(gate, now).history, t) == Returns(gate.history, t) {
      OneMoreAnswer(gate.history, Granted(first), t);
    }
  }

  lemma {:induction false} PassedFlags(gate: Gate, now: Instant)
    requires InLine(gate) && gate.waiters != [] && Flagged(gate) && HeldWereGranted(gate)
    ensures Flagged(Passed(gate, now)) && HeldWereGranted(Passed(gate, now))
    ensures gate.waiters[0].ticket !in gate.held
  {
    var first := gate.waiters[0].ticket;
    PassedInLine(gate, now);
    LineSplit(gate);
    LineSplit(Passed(gate, now));
    assert Tickets(gate.waiters)[0] == first;
    assert first in GrantedIn(gate.history) + [first];
    var rest := gate.waiters[1..];
    forall i | 0 <= i < |rest| ensures rest[i].ticket !in gate.settled + {first} {
      assert rest[i] == gate.waiters[i + 1] && Tickets(rest)[i] == rest[i].ticket;
    }
  }

  lemma {:induction false} PassedIsFair(gate: Gate, now: Instant)
    requires InLine(gate) && AnsweredOnce(gate) && Flagged(gate) && ReturnedOnce(gate) && HeldWereGranted(gate)
    requires Measured(gate) && SlotFreed(gate) && gate.waiters != []
    ensures Fair(Passed(gate, now))
  {
    PassedInLine(gate, now);
    PassedAnswers(gate, now);
    PassedFlags(gate, now);
    RecordKeepsMeasured(gate, gate.waiters[0].queuedAt, now);
  }

  function TakenBack(gate: Gate, ticket: Ticket): Gate {
    gate.(held := gate.held - {ticket}, history := gate.history + [Returned(ticket)])
  }

  lemma {:induction false} TakenBackAnswers(gate: Gate, ticket: Ticket)
    requires AnsweredOnce(gate) && ReturnedOnce(gate) && HeldWereGranted(gate) && ticket in gate.held
    ensures AnsweredOnce(TakenBack(gate, ticket)) && ReturnedOnce(TakenBack(gate, ticket))
    ensures HeldWereGranted(TakenBack(gate, ticket))
  {
    OneMoreEvent(gate.history, Returned(ticket));
    forall t ensures Settlements(TakenBack(gate, ticket).history, t) == Settlements(gate.history, t)
             ensures Returns(TakenBack(gate, ticket).history, t) ==
                     Returns(gate.history, t) + (if t == ticket then 1 else 0) {
      OneMoreAnswer(gate.history, Returned(ticket), t);
    }
  }

  lemma {:induction false} ReleaseKeepsFair(gate: Gate, ticket: Ticket, now: Instant)
    requires Fair(gate)
    ensures Fair(Release(gate, ticket, now))
  {
    if ticket in gate.held {
      var freed := TakenBack(gate, ticket);
      OneMoreEvent(gate.history, Returned(ticket));
      TakenBackAnswers(gate, ticket);
      if gate.waiters != [] { PassedIsFair(freed, now); }
    }
  }

  // ---------- cancelling a waiter ----------

  function Left(gate: Gate, i: nat, ending: Ending): Gate
    requires i < |gate.waiters|
  {
    gate.(waiters := gate.waiters[..i] + gate.waiters[i + 1..], settled := gate.settled + {gate.waiters[i].ticket},
          history := gate.history + [Dropped(gate.waiters[i].ticket, ending)])
  }

  lemma {:induction false} Cut(front: seq<Ticket>, back: seq<Ticket>, i: nat)
    requires i < |back|
    ensures (front + back)[|front| + i] == back[i]
    ensures (front + back)[..|front| + i] + (front + back)[|front| + i + 1..] == front + (back[..i] + back[i + 1..])
  {
    assert (front + back)[..|front| + i] == front + back[..i];
    assert (front + back)[|front| + i + 1..] == back[i + 1..];
  }

  /** Taking the waiter at `i` out of the line of granted and waiting requests. */
  lemma {:induction false} OutOfLine(granted: seq<Ticket>, waiting: seq<Ticket>, i: nat)
    requires i < |waiting| && Distinct(granted + waiting)
    ensures Without(granted + waiting, {waiting[i]}) == granted + (waiting[..i] + waiting[i + 1..])
  {
    Cut(granted, waiting, i);
    WithoutOne(granted + waiting, |granted| + i);
  }

  lemma {:induction false} TicketsCut(waiters: seq<Waiter>, i: nat)
    requires i < |waiters|
    ensures Tickets(waiters)[i] == waiters[i].ticket
    ensures Tickets(waiters[..i] + waiters[i + 1..]) == Tickets(waiters)[..i] + Tickets(waiters)[i + 1..]
  {
  }

  lemma {:induction false} LeftInLine(gate: Gate, i: nat, ending: Ending)
    requires i < |gate.waiters| && InLine(gate)
    ensures InLine(Left(gate, i, ending))
  {
    var ticket := gate.waiters[i].ticket;
    OneMoreEvent(gate.history, Dropped(ticket, ending));
    LineSplit(gate);
    TicketsCut(gate.waiters, i);
    assert Waiting(gate, ticket);
    WithoutMore(ArrivedIn(gate.history), DroppedIn(gate.history), ticket);
    OutOfLine(GrantedIn(gate.history), Tickets(gate.waiters), i);
  }

  lemma {:induction false} LeftAnswers(gate: Gate, i: nat, ending: Ending)
    requires i < |gate.waiters| && InLine(gate) && AnsweredOnce(gate) && ReturnedOnce(gate)
    ensures AnsweredOnce(Left(gate, i, ending)) && ReturnedOnce(Left(gate, i, ending))
  {
    var ticket := gate.waiters[i].ticket;
    var event := Dropped(ticket, ending);
    OneMoreEvent(gate.history, event);
    LineSplit(gate);
    LeavesOne(gate, i, ending);
    assert Tickets(gate.waiters)[i] == ticket;
    forall t ensures Settlements(gate.history + [event], t) == Settlements(gate.history, t) + (if t == ticket then 1 else 0)
             ensures Returns(gate.history + [event], t) == Returns(gate.history, t) {
      OneMoreAnswer(gate.history, event, t);
    }
  }

  lemma {:induction false} LeavesOne(gate: Gate, i: nat, ending: Ending)
    requires i < |gate.waiters| && InLine(gate)
    ensures forall t :: Waiting(Left(gate, i, ending), t) <==> Waiting(gate, t) && t != gate.waiters[i].ticket
  {
    var waiting, after := Tickets(gate.waiters), Tickets(Left(gate, i, ending).waiters);
    LineSplit(gate);
    assert Distinct(waiting) by {
      var line := GrantedIn(gate.history) + waiting;
      forall j, k | 0 <= j < k < |waiting| ensures waiting[j] != waiting[k] {
        assert line[|GrantedIn(gate.history)| + j] == waiting[j] && line[|GrantedIn(gate.history)| + k] == waiting[k];
      }
    }
    assert after == waiting[..i] + waiting[i + 1..];
    assert waiting == waiting[..i] + [waiting[i]] + waiting[i + 1..];
  }

  lemma {:induction false} LeftFlags(gate: Gate, i: nat, ending: Ending)
    requires i < |gate.waiters| && InLine(gate) && Flagged(gate) && HeldWereGranted(gate)
    ensures Flagged(Left(gate, i, ending)) && HeldWereGranted(Left(gate, i, ending))
  {
    var ticket, after := gate.waiters[i].ticket, Left(gate, i, ending);
    OneMoreEvent(gate.history, Dropped(ticket, ending));
    LineSplit(gate);
    LeavesOne(gate, i, ending);
    assert Tickets(gate.waiters)[i] == ticket;
    forall k | 0 <= k < |after.waiters| ensures after.waiters[k].ticket !in after.settled {
      assert Tickets(after.waiters)[k] == after.waiters[k].ticket;
      assert Waiting(after, after.waiters[k].ticket);
      assert after.waiters[k] in gate.waiters;
    }
  }

  lemma {:induction false} CancelKeepsFair(gate: Gate, ticket: Ticket, ending: Ending, now: Instant)
    requires Fair(gate)
    ensures Fair(Cancel(gate, ticket, ending, now))
  {
    var i := PositionOf(gate.waiters, ticket);
    if ticket !in gate.settled && i >= 0 {
      LeftInLine(gate, i, ending);
      LeftAnswers(gate, i, ending);
      LeftFlags(gate, i, ending);
      RecordKeepsMeasured(gate, gate.waiters[i].queuedAt, now);
    }
  }

  // ---------- every run ----------

  datatype Call =
    | Entering(aborted: bool, timeout: Timeout, now: Instant)
    | Releasing(ticket: Ticket, now: Instant)
    | Cancelling(ticket: Ticket, ending: Ending, now: Instant)

  function Handle(gate: Gate, call: Call): Gate {
    match call
    case Entering(aborted, timeout, now) => Enter(gate, aborted, timeout, now)
    case Releasing(ticket, now) => Release(gate, ticket, now)
    case Cancelling(ticket, ending, now) => Cancel(gate, ticket, ending, now)
  }

  function Run(gate: Gate, calls: seq<Call>): Gate
    decreases |calls|
  {
    if calls == [] then gate else Run(Handle(gate, calls[0]), calls[1..])
  }

  lemma {:induction false} RunKeepsFair(gate: Gate, calls: seq<Call>)
    requires Fair(gate)
    ensures Fair(Run(gate, calls))
    decreases |calls|
  {
    if calls != [] {
      match calls[0] {
        case Entering(aborted, timeout, now) => EnterKeepsFair(gate, aborted, timeout, now);
        case Releasing(ticket, now) => ReleaseKeepsFair(gate, ticket, now);
        case Cancelling(ticket, ending, now) => CancelKeepsFair(gate, ticket, ending, now);
      }
      RunKeepsFair(Handle(gate, calls[0]), calls[1..]);
    }
  }

  lemma {:induction false} CallKeepsLimits(gate: Gate, call: Call)
    ensures Handle(gate, call).capacity == gate.capacity && Handle(gate, call).maxQueued == gate.maxQueued
  {
  }

  lemma {:induction false} RunKeepsLimits(gate: Gate, calls: seq<Call>)
    ensures Run(gate, calls).capacity == gate.capacity && Run(gate, calls).maxQueued == gate.maxQueued
    decreases |calls|
  {
    if calls != [] {
      CallKeepsLimits(gate, calls[0]);
      RunKeepsLimits(Handle(gate, calls[0]), calls[1..]);
    }
  }

  /** In every run of a queue: permits never exceed the capacity, a request waits only when all are
      out, the queue is bounded, and the total wait is at most the count times the maximum. */
  lemma {:induction false} EveryRunIsBounded(capacity: nat, maxQueued: nat, calls: seq<Call>)
    ensures var gate := Run(Opened(capacity, maxQueued), calls);
            && gate.activeSlots == |gate.held| <= capacity
            && (gate.waiters != [] ==> |gate.held| == capacity)
            && |gate.waiters| <= maxQueued
            && gate.waitTotal <= gate.waitCount as real * gate.waitMax
  {
    OpenedIsFair(capacity, maxQueued);
    RunKeepsFair(Opened(capacity, maxQueued), calls);
    RunKeepsLimits(Opened(capacity, maxQueued), calls);
    var gate := Run(Opened(capacity, maxQueued), calls);
    TotalIsBounded(gate.waits, gate.waitMax);
  }

  /** Nobody overtakes: of two requests that were not dropped, the one that arrived first is granted
      first; and a request is granted or dropped at most once. */
  lemma {:induction false} NobodyOvertakes(gate: Gate, i: nat, j: nat)
    requires Fair(gate) && i < j < |ArrivedIn(gate.history)|
    requires ArrivedIn(gate.history)[i] !in DroppedIn(gate.history)
    requires ArrivedIn(gate.history)[j] in GrantedIn(gate.history)
    ensures ArrivedIn(gate.history)[i] in GrantedIn(gate.history)
    ensures Settlements(gate.history, ArrivedIn(gate.history)[i]) == 1
    ensures exists k, l :: 0 <= k < l < |GrantedIn(gate.history)| &&
              GrantedIn(gate.history)[k] == ArrivedIn(gate.history)[i] && GrantedIn(gate.history)[l] == ArrivedIn(gate.history)[j]
  {
    var arrived, granted, waiting := ArrivedIn(gate.history), GrantedIn(gate.history), Tickets(gate.waiters);
    var line := Without(arrived, DroppedIn(gate.history));
    LineSplit(gate);
    var k, l := OrderKept(arrived, DroppedIn(gate.history), i, j);
    var m :| 0 <= m < |granted| && granted[m] == arrived[j];
    assert line[m] == granted[m];
    assert l == m && line[k] == granted[k];
    assert granted[k] in granted;
  }

  lemma {:induction false} OrderKept(tickets: seq<Ticket>, gone: set<Ticket>, i: nat, j: nat)
    returns (k: nat, l: nat)
    requires i < j < |tickets| && tickets[i] !in gone && tickets[j] !in gone
    ensures k < l < |Without(tickets, gone)|
    ensures Without(tickets, gone)[k] == tickets[i] && Without(tickets, gone)[l] == tickets[j]
  {
    var init, last := tickets[..|tickets| - 1], tickets[|tickets| - 1];
    if j < |init| {
      k, l := OrderKept(init, gone, i, j);
    } else {
      WithoutKeeps(init, gone);
      assert init[i] in init;
      k :| 0 <= k < |Without(init, gone)| && Without(init, gone)[k] == tickets[i];
      l := |Without(init, gone)|;
    }
  }

  lemma {:induction false} HistoryGrows(gate: Gate, calls: seq<Call>)
    ensures gate.history <= Run(gate, calls).history
    decreases |calls|
  {
    if calls != [] { HistoryGrows(Handle(gate, calls[0]), calls[1..]); }
  }

  lemma {:induction false} ReturnsGrow(short: seq<Event>, long: seq<Event>, ticket: Ticket)
    requires short <= long
    ensures Returns(short, ticket) <= Returns(long, ticket)
    decreases |long|
  {
    if short != long { ReturnsGrow(short, long[..|long| - 1], ticket); }
  }

  /** Calling a release function again changes nothing, whatever happened in between. */
  lemma {:induction false} ReleaseIsIdempotent(gate: Gate, ticket: Ticket, now: Instant, calls: seq<Call>, later: Instant)
    requires Fair(gate) && ticket in gate.held
    ensures var after := Run(Release(gate, ticket, now), calls);
            Release(after, ticket, later) == after && Returns(after.history, ticket) == 1
  {
    var freed := Release(gate, ticket, now);
    var after := Run(freed, calls);
    ReleaseKeepsFair(gate, ticket, now);
    RunKeepsFair(freed, calls);
    OneMoreAnswer(gate.history, Returned(ticket), ticket);
    ReturnsGrow(gate.history + [Returned(ticket)], freed.history, ticket);
    HistoryGrows(freed, calls);
    ReturnsGrow(freed.history, after.history, ticket);
    assert Returns(after.history, ticket) == 1;
  }

  // ---------- what is measured ----------

  /** A request that is queued is stamped with its arrival; one that is not leaves no mark. */
  lemma {:induction false} ArrivalIsStamped(gate: Gate, aborted: bool, timeout: Timeout, now: Instant)
    ensures
      var after := Enter(gate, aborted, timeout, now);
      && after.waits == gate.waits && after.waitCount == gate.waitCount && after.waitTotal == gate.waitTotal
      && (after.waiters == gate.waiters || after.waiters == gate.waiters + [Waiter(gate.next, now)])
  {
  }

  /** What one more wait does to the counters. */
  predicate OneMoreWait(gate: Gate, after: Gate, ms: real) {
    && after.waits == gate.waits + [ms] && after.waitCount == gate.waitCount + 1
    && after.waitTotal == gate.waitTotal + ms && after.waitMax == if gate.waitMax >= ms then gate.waitMax else ms
  }

  predicate NoMoreWaits(gate: Gate, after: Gate) {
    after.waits == gate.waits && after.waitCount == gate.waitCount && after.waitTotal == gate.waitTotal && after.waitMax == gate.waitMax
  }

  /** A slot that passes on ends one wait, from the arrival of the first in line to now. */
  lemma {:induction false} ReleaseEndsWait(gate: Gate, ticket: Ticket, now: Instant)
    requires ticket in gate.held
    ensures
      var after := Release(gate, ticket, now);
      if gate.waiters == [] then NoMoreWaits(gate, after)
      else OneMoreWait(gate, after, Elapsed(gate.waiters[0].queuedAt, now))
  {
  }

  /** A waiter that is taken out ends its own wait. */
  lemma {:induction false} CancelEndsWait(gate: Gate, ticket: Ticket, ending: Ending, now: Instant)
    ensures
      var after, i := Cancel(gate, ticket, ending, now), PositionOf(gate.waiters, ticket);
      if ticket in gate.settled || i < 0 then after == gate else OneMoreWait(gate, after, Elapsed(gate.waiters[i].queuedAt, now))
  {
  }

  // ---------- what is counted ----------

  /** Requests that arrived aborted, and live ones whose limit had passed. */
  function ArrivedAborted(calls: seq<Call>): nat {
    if calls == [] then 0
    else ArrivedAborted(calls[..|calls| - 1]) + if calls[|calls| - 1].Entering? && calls[|calls| - 1].aborted then 1 else 0
  }

  predicate TooLate(call: Call) {
    call.Entering? && !call.aborted &&
    match call.timeout
    case Unlimited => false
    case Within(ms) => !(ms > 0.0)
    case NotFinite => true
  }

  function ArrivedLate(calls: seq<Call>): nat {
    if calls == [] then 0 else ArrivedLate(calls[..|calls| - 1]) + if TooLate(calls[|calls| - 1]) then 1 else 0
  }

  function DroppedAs(history: seq<Event>, ending: Ending): nat {
    if history == [] then 0
    else
      var last := history[|history| - 1];
      DroppedAs(history[..|history| - 1], ending) + if last.Dropped? && last.ending == ending then 1 else 0
  }

  lemma {:induction false} OneMoreDropped(history: seq<Event>, event: Event, ending: Ending)
    ensures DroppedAs(history + [event], ending) ==
            DroppedAs(history, ending) + if event.Dropped? && event.ending == ending then 1 else 0
  {
    Snoc(history, event);
  }

  /** What one call adds to the counters, and to the record. */
  predicate Counted(gate: Gate, call: Call, after: Gate) {
    && after.cancelled - gate.cancelled - (if call.Entering? && call.aborted then 1 else 0) ==
       DroppedAs(after.history, Cancelled) - DroppedAs(gate.history, Cancelled)
    && after.timedOut - gate.timedOut - (if TooLate(call) then 1 else 0) ==
       DroppedAs(after.history, TimedOut) - DroppedAs(gate.history, TimedOut)
  }

  lemma {:induction false} EnteringCounts(gate: Gate, aborted: bool, timeout: Timeout, now: Instant)
    ensures Counted(gate, Entering(aborted, timeout, now), Enter(gate, aborted, timeout, now))
  {
    EventCounts(gate.history, Arrived(gate.next));
    EventCounts(gate.history + [Arrived(gate.next)], Granted(gate.next));
  }

  lemma {:induction false} ReleasingCounts(gate: Gate, ticket: Ticket, now: Instant)
    ensures Counted(gate, Releasing(ticket, now), Release(gate, ticket, now))
  {
    EventCounts(gate.history, Returned(ticket));
    if gate.waiters != [] { EventCounts(gate.history + [Returned(ticket)], Granted(gate.waiters[0].ticket)); }
  }

  lemma {:induction false} CancellingCounts(gate: Gate, ticket: Ticket, ending: Ending, now: Instant)
    ensures Counted(gate, Cancelling(ticket, ending, now), Cancel(gate, ticket, ending, now))
  {
    EventCounts(gate.history, Dropped(ticket, ending));
  }

  lemma {:induction false} CallCounts(gate: Gate, call: Call)
    ensures Counted(gate, call, Handle(gate, call))
  {
    match call
    case Entering(aborted, timeout, now) => EnteringCounts(gate, aborted, timeout, now);
    case Releasing(ticket, now) => ReleasingCounts(gate, ticket, now);
    case Cancelling(ticket, ending, now) => CancellingCounts(gate, ticket, ending, now);
  }

  lemma {:induction false} EventCounts(history: seq<Event>, event: Event)
    ensures forall ending :: DroppedAs(history + [event], ending) ==
              DroppedAs(history, ending) + if event.Dropped? && event.ending == ending then 1 else 0
  {
    forall ending
      ensures DroppedAs(history + [event], ending) ==
              DroppedAs(history, ending) + if event.Dropped? && event.ending == ending then 1 else 0
    {
      OneMoreDropped(history, event, ending);
    }
  }

  lemma {:induction false} RunSnoc(gate: Gate, calls: seq<Call>, last: Call)
    ensures Run(gate, calls + [last]) == Handle(Run(gate, calls), last)
    decreases |calls|
  {
    if calls == [] {
      assert [last][1..] == [];
      ConcatNothing([last]);
    } else {
      assert (calls + [last])[1..] == calls[1..] + [last];
      RunSnoc(Handle(gate, calls[0]), calls[1..], last);
    }
  }

  /** In every run the queue has counted as cancelled what arrived aborted or was taken out as such, and
      as timed out what arrived too late or was taken out as such. */
  lemma {:induction false} CountersSayCalls(capacity: nat, maxQueued: nat, calls: seq<Call>)
    ensures
      var gate := Run(Opened(capacity, maxQueued), calls);
      && gate.cancelled == ArrivedAborted(calls) + DroppedAs(gate.history, Cancelled)
      && gate.timedOut == ArrivedLate(calls) + DroppedAs(gate.history, TimedOut)
  {
    if calls != [] {
      var init, last := calls[..|calls| - 1], calls[|calls| - 1];
      InitAndLast(calls);
      CountersSayCalls(capacity, maxQueued, init);
      RunSnoc(Opened(capacity, maxQueued), init, last);
      CallCounts(Run(Opened(capacity, maxQueued), init), last);
    }
  }
}
