/** What the order store guarantees over every stream of deliveries, cancellations
    and creations, each of which may roll back. */
module OrdersTheorems {
  import opened Common
  import opened OrderLifecycle
  import opened OrdersRepository

  datatype Command =
    | Deliver(event: LifecycleEvent, at: Time, commits: bool)
    | CancelOrder(orderId: Id, reason: string, who: Requester, commits: bool)
    | CreateOrder(details: Details, at: Time, idem: Option<Idempotency>, commits: bool)

  /** One transaction; a rolled-back one changes nothing and its caller sees an error. */
  function Do(s: Store, c: Command): (Store, Outcome) {
    if !c.commits then (s, Threw)
    else
      match c
      case Deliver(e, now, _) => ProcessLifecycle(s, e, now)
      case CancelOrder(id, reason, who, _) => Cancel(s, id, reason, who)
      case CreateOrder(d, now, idem, _) => Create(s, d, now, idem)
  }

  function Exec(cmds: seq<Command>): Store
    decreases |cmds|
  {
    if cmds == [] then EmptyStore else Do(Exec(cmds[..|cmds| - 1]), cmds[|cmds| - 1]).0
  }

  /** What the `i`-th transaction answered. */
  function OutcomeAt(cmds: seq<Command>, i: nat): Outcome
    requires i < |cmds|
  {
    Do(Exec(cmds[..i]), cmds[i]).1
  }

  lemma ExecStep(cmds: seq<Command>, c: Command)
    ensures Exec(cmds + [c]) == Do(Exec(cmds), c).0
  {
    assert (cmds + [c])[..|cmds|] == cmds;
  }

  lemma ExecPrefix(cmds: seq<Command>, i: nat)
    requires i < |cmds|
    ensures Exec(cmds[..i + 1]) == Do(Exec(cmds[..i]), cmds[i]).0
  {
    assert cmds[..i + 1] == cmds[..i] + [cmds[i]];
    ExecStep(cmds[..i], cmds[i]);
  }

  // ------------------------------------------------------- dedup and projection

  /** The event ids some committed delivery carried. */
  ghost function Delivered(cmds: seq<Command>): set<Id> {
    set c | c in cmds && c.Deliver? && c.commits :: c.event.eventId
  }

  ghost predicate Repeats(before: seq<Command>, c: Command) {
    c.Deliver? && c.commits && c.event.eventId in Delivered(before)
  }

  /** The stream without the deliveries whose event id was delivered before. */
  ghost function Deduplicate(cmds: seq<Command>): seq<Command>
    decreases |cmds|
  {
    if cmds == [] then []
    else
      var before, last := cmds[..|cmds| - 1], cmds[|cmds| - 1];
      if Repeats(before, last) then Deduplicate(before) else Deduplicate(before) + [last]
  }

  lemma {:induction false} ProcessedIsDelivered(cmds: seq<Command>)
    ensures Exec(cmds).processed.Keys == Delivered(cmds)
  {
    if cmds != [] {
      var before, last := cmds[..|cmds| - 1], cmds[|cmds| - 1];
      ProcessedIsDelivered(before);
      assert cmds == before + [last];
      assert Delivered(cmds)
        == Delivered(before) + (if last.Deliver? && last.commits then {last.event.eventId} else {});
      if last.Deliver? && last.commits {
        FinalNeverThrows(Exec(before), last);
      }
    }
  }

  /** The guard that would roll a delivery back is never hit. */
  lemma FinalNeverThrows(s: Store, c: Command)
    requires c.Deliver? && c.commits
    ensures Do(s, c).1 != Threw
  {
    if c.event.orderId in s.orders {
      FinalEventMatchesDecision(s.orders[c.event.orderId], c.event, Fresh(s.next));
    }
  }

  /** Redelivery is invisible: the store after a stream is the store after the
      stream without repeated event ids, and each repeat answers DUPLICATE_EVENT. */
  lemma {:induction false} RedeliveryIsInvisible(cmds: seq<Command>)
    ensures Exec(cmds) == Exec(Deduplicate(cmds))
    ensures forall i :: 0 <= i < |cmds| && Repeats(cmds[..i], cmds[i]) ==> OutcomeAt(cmds, i) == DuplicateEvent
    ensures forall i :: 0 <= i < |cmds| && cmds[i].Deliver? && cmds[i].commits && !Repeats(cmds[..i], cmds[i]) ==>
              OutcomeAt(cmds, i) != DuplicateEvent
  {
    forall i | 0 <= i < |cmds|
      ensures Repeats(cmds[..i], cmds[i]) ==> OutcomeAt(cmds, i) == DuplicateEvent
      ensures cmds[i].Deliver? && cmds[i].commits && !Repeats(cmds[..i], cmds[i])
        ==> OutcomeAt(cmds, i) != DuplicateEvent
    {
      ProcessedIsDelivered(cmds[..i]);
    }
    if cmds != [] {
      var before, last := cmds[..|cmds| - 1], cmds[|cmds| - 1];
      RedeliveryIsInvisible(before);
      ProcessedIsDelivered(before);
      if !Repeats(before, last) {
        ExecStep(Deduplicate(before), last);
      }
    }
  }

  datatype Input = Event(eventType: LifecycleType) | Cancellation

  function NextStatus(st: OrderStatus, input: Input): OrderStatus {
    match input
    case Event(t) => var d := DecideOrderTransition(st, t); if d.Allowed? then d.to else st
    case Cancellation => if DecideOrderCancellation(st).Accepted? then Cancelled else st
  }

  function Fold(inputs: seq<Input>): OrderStatus
    decreases |inputs|
  {
    if inputs == [] then Pending else NextStatus(Fold(inputs[..|inputs| - 1]), inputs[|inputs| - 1])
  }

  ghost predicate Concerns(before: seq<Command>, c: Command, o: Id) {
    && c.commits
    && ((c.Deliver? && c.event.orderId == o && c.event.eventId !in Delivered(before))
        || (c.CancelOrder? && c.orderId == o))
  }

  function AsInput(c: Command): Input
    requires !c.CreateOrder?
  {
    if c.Deliver? then Event(c.event.eventType) else Cancellation
  }

  /** Order `o`'s own stream: first deliveries and cancellations that name it,
      from its creation on. Events seen earlier are consumed for good. */
  ghost function OwnStream(cmds: seq<Command>, o: Id): seq<Input>
    decreases |cmds|
  {
    if cmds == [] then []
    else
      var before, last := cmds[..|cmds| - 1], cmds[|cmds| - 1];
      if o in Exec(before).orders && Concerns(before, last, o) then OwnStream(before, o) + [AsInput(last)]
      else OwnStream(before, o)
  }

  /** Orders sit under their own id, and every id in use was generated before. */
  ghost predicate IdsOk(s: Store) {
    forall o :: o in s.orders ==> s.orders[o].id == o && o.Fresh? && o.n < s.next
  }

  lemma DeliverStatus(s: Store, e: LifecycleEvent, now: Time, o: Id)
    requires IdsOk(s)
    ensures IdsOk(ProcessLifecycle(s, e, now).0) && ProcessLifecycle(s, e, now).0.orders.Keys == s.orders.Keys
    ensures o in s.orders ==>
              ProcessLifecycle(s, e, now).0.orders[o].status ==
                if e.orderId == o && e.eventId !in s.processed then NextStatus(s.orders[o].status, Event(e.eventType))
                else s.orders[o].status
  {
    FinalNeverThrows(s, Deliver(e, now, true));
  }

  lemma StatusStep(s: Store, c: Command, o: Id)
    requires IdsOk(s)
    ensures IdsOk(Do(s, c).0)
    ensures o in s.orders ==> o in Do(s, c).0.orders
    ensures o in s.orders ==>
              Do(s, c).0.orders[o].status ==
                if c.commits && ((c.Deliver? && c.event.orderId == o && c.event.eventId !in s.processed)
                                 || (c.CancelOrder? && c.orderId == o))
                then NextStatus(s.orders[o].status, AsInput(c)) else s.orders[o].status
    ensures o !in s.orders && o in Do(s, c).0.orders ==> c.CreateOrder? && Do(s, c).0.orders[o].status == Pending
  {
    if c.Deliver? && c.commits {
      DeliverStatus(s, c.event, c.at, o);
    }
  }

  lemma {:induction false} ExecIdsOk(cmds: seq<Command>)
    ensures IdsOk(Exec(cmds))
  {
    if cmds != [] {
      ExecIdsOk(cmds[..|cmds| - 1]);
      StatusStep(Exec(cmds[..|cmds| - 1]), cmds[|cmds| - 1], Fresh(0));
    }
  }

  /** An order's status is the fold of the two decision functions over its own stream. */
  lemma {:induction false} StatusIsTheFold(cmds: seq<Command>, o: Id)
    ensures o in Exec(cmds).orders ==> Exec(cmds).orders[o].status == Fold(OwnStream(cmds, o))
    ensures o !in Exec(cmds).orders ==> OwnStream(cmds, o) == []
  {
    if cmds != [] {
      var before, last := cmds[..|cmds| - 1], cmds[|cmds| - 1];
      StatusIsTheFold(before, o);
      ProcessedIsDelivered(before);
      ExecIdsOk(before);
      StatusStep(Exec(before), last, o);
      if o in Exec(before).orders && Concerns(before, last, o) {
        var inputs := OwnStream(before, o) + [AsInput(last)];
        assert inputs[..|inputs| - 1] == OwnStream(before, o);
      }
    }
  }

  // ------------------------------------------------- one final event, with a cause

  /** The final events among `events` that concern order `o`. */
  function Finals(events: seq<OutEvent>, o: Id): seq<OutEvent>
    decreases |events|
  {
    if events == [] then []
    else
      var before, last := events[..|events| - 1], events[|events| - 1];
      if last.orderId == o && TypeOfFinal(last.kind).Some? then Finals(before, o) + [last] else Finals(before, o)
  }

  lemma FinalsOfAppend(events: seq<OutEvent>, e: OutEvent, o: Id)
    ensures Finals(events + [e], o) ==
              if e.orderId == o && TypeOfFinal(e.kind).Some? then Finals(events, o) + [e] else Finals(events, o)
  {
    assert (events + [e])[..|events|] == events;
  }

  lemma FinalsOfTwo(events: seq<OutEvent>, e: OutEvent, f: OutEvent, o: Id)
    requires TypeOfFinal(e.kind).None?
    ensures Finals(events + [e, f], o) ==
              if f.orderId == o && TypeOfFinal(f.kind).Some? then Finals(events, o) + [f] else Finals(events, o)
  {
    FinalsOfAppend(events, e, o);
    FinalsOfAppend(events + [e], f, o);
    assert events + [e, f] == events + [e] + [f];
  }

  /** The lifecycle events that changed order `o`, in order. */
  ghost function AppliedTo(cmds: seq<Command>, o: Id): seq<LifecycleEvent>
    decreases |cmds|
  {
    if cmds == [] then []
    else
      var before, last := cmds[..|cmds| - 1], cmds[|cmds| - 1];
      if last.Deliver? && last.event.orderId == o && Do(Exec(before), last).1.Applied?
      then AppliedTo(before, o) + [last.event] else AppliedTo(before, o)
  }

  function Types(events: seq<LifecycleEvent>): seq<LifecycleType> {
    seq(|events|, i requires 0 <= i < |events| => events[i].eventType)
  }

  ghost predicate CausedBy(final: OutEvent, e: LifecycleEvent) {
    final.causationId == Some(e.eventId) && final.correlationId == e.correlationId
  }

  /** A cancellation final answers a request recorded for the same order. */
  ghost predicate CausedByRequest(final: OutEvent, outbox: seq<OutEvent>) {
    exists r :: r in outbox && r.kind.CancellationRequested? && r.orderId == final.orderId
                && final.causationId == Some(r.eventId) && final.correlationId == r.correlationId
  }

  /** Everything that can have happened to an order with a given status. */
  ghost predicate Life(st: OrderStatus, applied: seq<LifecycleEvent>, finals: seq<OutEvent>, outbox: seq<OutEvent>) {
    match st
    case Pending => applied == [] && finals == []
    case RiskApproved => Types(applied) == [OrderRiskApproved] && finals == []
    case Confirmed =>
      && Types(applied) == [OrderRiskApproved, PaymentAuthorizedEvent]
      && |finals| == 1 && finals[0].kind.OrderConfirmed? && CausedBy(finals[0], applied[1])
    case Cancelled =>
      && |finals| == 1 && finals[0].kind.OrderCancelled?
      && (match finals[0].kind.who
          case ByRisk => Types(applied) == [OrderRiskRejected] && CausedBy(finals[0], applied[0])
          case ByPayment => Types(applied) == [OrderRiskApproved, PaymentFailedEvent] && CausedBy(finals[0], applied[1])
          case _ => Types(applied) in {[], [OrderRiskApproved]} && CausedByRequest(finals[0], outbox))
    case _ => false
  }

  lemma OutboxGrows(s: Store, c: Command)
    ensures s.outbox <= Do(s, c).0.outbox
  {
  }

  /** Requests stay on record. */
  lemma LifeKeeps(st: OrderStatus, applied: seq<LifecycleEvent>, finals: seq<OutEvent>, outbox: seq<OutEvent>,
                  more: seq<OutEvent>)
    requires Life(st, applied, finals, outbox) && outbox <= more
    ensures Life(st, applied, finals, more)
  {
    if st == Cancelled && CausedByRequest(finals[0], outbox) {
      var r :| r in outbox && r.kind.CancellationRequested? && r.orderId == finals[0].orderId
               && finals[0].causationId == Some(r.eventId) && finals[0].correlationId == r.correlationId;
      assert r in more;
    }
  }

  /** The final events for order `o` that a transaction reports. */
  function Reported(r: Outcome, o: Id): seq<OutEvent> {
    if r.Applied? && r.finalEvent.Some? && r.finalEvent.value.orderId == o then [r.finalEvent.value]
    else if r.CancelAccepted? && r.final.orderId == o then [r.final]
    else []
  }

  lemma DeliverFinals(s: Store, e: LifecycleEvent, now: Time, o: Id)
    ensures var (s', r) := ProcessLifecycle(s, e, now); Finals(s'.outbox, o) == Finals(s.outbox, o) + Reported(r, o)
  {
    if e.eventId !in s.processed && e.orderId in s.orders {
      var order := s.orders[e.orderId];
      var d := DecideOrderTransition(order.status, e.eventType);
      if d.Allowed? && d.finalType.Some? {
        FinalEventMatchesDecision(order.(status := d.to), e, Fresh(s.next));
        FinalsOfAppend(s.outbox, CreateFinalOrderEvent(order.(status := d.to), e, Fresh(s.next)).value, o);
      }
    }
  }

  lemma CancelFinals(s: Store, orderId: Id, reason: string, who: Requester, o: Id)
    ensures var (s', r) := Cancel(s, orderId, reason, who); Finals(s'.outbox, o) == Finals(s.outbox, o) + Reported(r, o)
  {
    var r := Cancel(s, orderId, reason, who).1;
    if r.CancelAccepted? {
      FinalsOfTwo(s.outbox, r.requested, r.final, o);
    } else if r.CancelRejected? {
      FinalsOfTwo(s.outbox, r.request, r.answer, o);
    }
  }

  lemma CreateFinals(s: Store, d: Details, now: Time, idem: Option<Idempotency>, o: Id)
    ensures var (s', r) := Create(s, d, now, idem); Finals(s'.outbox, o) == Finals(s.outbox, o) + Reported(r, o)
  {
    FinalsOfAppend(s.outbox, CreatedEvent(s, d), o);
  }

  lemma FinalsStep(s: Store, c: Command, o: Id)
    ensures var (s', r) := Do(s, c); Finals(s'.outbox, o) == Finals(s.outbox, o) + Reported(r, o)
  {
    if c.commits {
      match c
      case Deliver(e, now, _) => DeliverFinals(s, e, now, o);
      case CancelOrder(id, reason, who, _) => CancelFinals(s, id, reason, who, o);
      case CreateOrder(d, now, idem, _) => CreateFinals(s, d, now, idem, o);
    }
  }

  lemma {:induction false} EveryOrderLives(cmds: seq<Command>, o: Id)
    ensures var s := Exec(cmds);
      && (o in s.orders ==> Life(s.orders[o].status, AppliedTo(cmds, o), Finals(s.outbox, o), s.outbox))
      && (o !in s.orders ==> AppliedTo(cmds, o) == [] && Finals(s.outbox, o) == [])
  {
    if cmds != [] {
      var before, last := cmds[..|cmds| - 1], cmds[|cmds| - 1];
      EveryOrderLives(before, o);
      ExecIdsOk(before);
      LifeStep(Exec(before), last, AppliedTo(before, o), o);
    }
  }

  /** An applied event moves the order from one life to the next. */
  lemma AppliedLife(order: Order, e: LifecycleEvent, id: Id, applied: seq<LifecycleEvent>, finals: seq<OutEvent>,
                    outbox: seq<OutEvent>)
    requires Life(order.status, applied, finals, outbox)
    requires DecideOrderTransition(order.status, e.eventType).Allowed?
    ensures var d := DecideOrderTransition(order.status, e.eventType);
      && (d.finalType.None? ==> Life(d.to, applied + [e], finals, outbox))
      && (d.finalType.Some? ==> CreateFinalOrderEvent(order.(status := d.to), e, id).Some?)
      && (d.finalType.Some? ==>
            Life(d.to, applied + [e], finals + [CreateFinalOrderEvent(order.(status := d.to), e, id).value], outbox))
  {
    assert Types(applied + [e]) == Types(applied) + [e.eventType];
    assert (applied + [e])[|applied|] == e;
    assert |Types(applied)| == |applied|;
  }

  lemma CancelledLife(s: Store, o: Id, reason: string, who: Requester, applied: seq<LifecycleEvent>)
    requires IdsOk(s) && o in s.orders && Life(s.orders[o].status, applied, Finals(s.outbox, o), s.outbox)
    requires Cancel(s, o, reason, who).1.CancelAccepted?
    ensures var (s', r) := Cancel(s, o, reason, who);
      Life(Cancelled, applied, Finals(s.outbox, o) + [r.final], s'.outbox)
  {
    var (s', r) := Cancel(s, o, reason, who);
    assert Finals(s.outbox, o) == [];
    assert r.requested == s'.outbox[|s.outbox|];
    assert r.requested in s'.outbox;
    assert CausedByRequest(r.final, s'.outbox);
    assert applied == [] ==> Types(applied) == [];
  }

  lemma LifeStep(s: Store, c: Command, applied: seq<LifecycleEvent>, o: Id)
    requires IdsOk(s)
    requires o in s.orders ==> Life(s.orders[o].status, applied, Finals(s.outbox, o), s.outbox)
    requires o !in s.orders ==> applied == [] && Finals(s.outbox, o) == []
    ensures var (s', r) := Do(s, c);
      var applied' := if c.Deliver? && c.event.orderId == o && r.Applied? then applied + [c.event] else applied;
      && (o in s'.orders ==> Life(s'.orders[o].status, applied', Finals(s'.outbox, o), s'.outbox))
      && (o !in s'.orders ==> applied' == [] && Finals(s'.outbox, o) == [])
  {
    var (s', r) := Do(s, c);
    StatusStep(s, c, o);
    FinalsStep(s, c, o);
    OutboxGrows(s, c);
    if c.Deliver? && c.event.orderId == o && r.Applied? {
      AppliedLife(s.orders[o], c.event, Fresh(s.next), applied, Finals(s.outbox, o), s.outbox);
      LifeKeeps(s'.orders[o].status, applied + [c.event], Finals(s'.outbox, o), s.outbox, s'.outbox);
    } else if c.CancelOrder? && c.orderId == o && r.CancelAccepted? {
      CancelledLife(s, o, c.reason, c.who, applied);
    } else if o in s.orders {
      UnmovedLife(s, c, applied, o);
    }
  }

  lemma UnmovedLife(s: Store, c: Command, applied: seq<LifecycleEvent>, o: Id)
    requires IdsOk(s) && o in s.orders && Life(s.orders[o].status, applied, Finals(s.outbox, o), s.outbox)
    requires !(c.Deliver? && c.event.orderId == o && Do(s, c).1.Applied?)
    requires !(c.CancelOrder? && c.orderId == o && Do(s, c).1.CancelAccepted?)
    ensures var (s', r) := Do(s, c);
      o in s'.orders && Life(s'.orders[o].status, applied, Finals(s'.outbox, o), s'.outbox)
  {
    var (s', r) := Do(s, c);
    StatusStep(s, c, o);
    FinalsStep(s, c, o);
    OutboxGrows(s, c);
    if c.Deliver? && c.commits {
      FinalNeverThrows(s, c);
    }
    assert s'.orders[o].status == s.orders[o].status;
    LifeKeeps(s.orders[o].status, applied, Finals(s.outbox, o), s.outbox, s'.outbox);
  }

  lemma LifeCounts(st: OrderStatus, applied: seq<LifecycleEvent>, finals: seq<OutEvent>, outbox: seq<OutEvent>)
    requires Life(st, applied, finals, outbox)
    ensures st == Pending || st == RiskApproved || st == Confirmed || st == Cancelled
    ensures |finals| == if st == Confirmed || st == Cancelled then 1 else 0
    ensures st == Confirmed ==> finals[0].kind.OrderConfirmed?
    ensures st == Cancelled ==> finals[0].kind.OrderCancelled?
  {
  }

  /** The number and type of an order's final events follow from its status. */
  lemma OneFinalEvent(cmds: seq<Command>, o: Id)
    ensures var s := Exec(cmds);
      && |Finals(s.outbox, o)| == (if o in s.orders && s.orders[o].status in {Confirmed, Cancelled} then 1 else 0)
      && (o in s.orders ==> s.orders[o].status in {Pending, RiskApproved, Confirmed, Cancelled})
      && (o in s.orders && s.orders[o].status == Confirmed ==> Finals(s.outbox, o)[0].kind.OrderConfirmed?)
      && (o in s.orders && s.orders[o].status == Cancelled ==> Finals(s.outbox, o)[0].kind.OrderCancelled?)
  {
    var s := Exec(cmds);
    EveryOrderLives(cmds, o);
    if o in s.orders {
      LifeCounts(s.orders[o].status, AppliedTo(cmds, o), Finals(s.outbox, o), s.outbox);
    }
  }

  // ------------------------------------------------ every request is answered once

  predicate IsAnswer(e: OutEvent) {
    || e.kind.CancellationRejected?
    || (e.kind.OrderCancelled? && e.kind.who in {ByUser, ByOperator})
  }

  predicate Answers(a: OutEvent, r: OutEvent) {
    && IsAnswer(a) && r.kind.CancellationRequested?
    && a.causationId == Some(r.eventId) && a.correlationId == r.correlationId
    && a.orderId == r.orderId && a.kind.reason == r.kind.reason
  }

  ghost predicate OutboxOk(outbox: seq<OutEvent>, next: nat) {
    && (forall i :: 0 <= i < |outbox| ==> outbox[i].eventId.Fresh? && outbox[i].eventId.n < next)
    && (forall i, j :: 0 <= i < j < |outbox| ==> outbox[i].eventId != outbox[j].eventId)
    && (forall i :: 0 <= i < |outbox| && outbox[i].kind.CancellationRequested? ==> AnsweredNext(outbox, i))
    && (forall i :: 0 <= i < |outbox| && IsAnswer(outbox[i]) ==> AnswersPrevious(outbox, i))
  }

  predicate AnsweredNext(outbox: seq<OutEvent>, i: nat)
    requires i < |outbox|
  {
    i + 1 < |outbox| && Answers(outbox[i + 1], outbox[i])
  }

  predicate AnswersPrevious(outbox: seq<OutEvent>, i: nat)
    requires i < |outbox|
  {
    i > 0 && Answers(outbox[i], outbox[i - 1])
  }

  lemma AppendPlain(outbox: seq<OutEvent>, next: nat, e: OutEvent, next': nat)
    requires OutboxOk(outbox, next) && e.eventId.Fresh? && next <= e.eventId.n < next'
    requires !e.kind.CancellationRequested? && !IsAnswer(e)
    ensures OutboxOk(outbox + [e], next')
  {
    var out := outbox + [e];
    forall i | 0 <= i < |out| && out[i].kind.CancellationRequested?
      ensures AnsweredNext(out, i)
    {
      assert AnsweredNext(outbox, i);
    }
    forall i | 0 <= i < |out| && IsAnswer(out[i])
      ensures AnswersPrevious(out, i)
    {
      assert AnswersPrevious(outbox, i);
    }
  }

  lemma AppendPair(outbox: seq<OutEvent>, next: nat, r: OutEvent, a: OutEvent, next': nat)
    requires OutboxOk(outbox, next) && r.eventId.Fresh? && a.eventId.Fresh?
    requires next <= r.eventId.n < a.eventId.n < next' && Answers(a, r)
    ensures OutboxOk(outbox + [r, a], next')
  {
    var out := outbox + [r, a];
    forall i | 0 <= i < |out| && out[i].kind.CancellationRequested?
      ensures AnsweredNext(out, i)
    {
      if i < |outbox| {
        assert AnsweredNext(outbox, i);
      }
    }
    forall i | 0 <= i < |out| && IsAnswer(out[i])
      ensures AnswersPrevious(out, i)
    {
      if i < |outbox| {
        assert AnswersPrevious(outbox, i);
      }
    }
  }

  lemma OutboxStep(s: Store, c: Command)
    requires IdsOk(s) && OutboxOk(s.outbox, s.next)
    ensures OutboxOk(Do(s, c).0.outbox, Do(s, c).0.next)
  {
    var (s', r) := Do(s, c);
    if c.commits {
      match c
      case Deliver(e, _, _) =>
        FinalNeverThrows(s, c);
        if r.Applied? && r.finalEvent.Some? {
          AppendPlain(s.outbox, s.next, r.finalEvent.value, s'.next);
        }
      case CancelOrder(_, _, _, _) =>
        if r.CancelAccepted? {
          AppendPair(s.outbox, s.next, r.requested, r.final, s'.next);
        } else if r.CancelRejected? {
          AppendPair(s.outbox, s.next, r.request, r.answer, s'.next);
        }
      case CreateOrder(d, _, _, _) =>
        if r.Created? {
          AppendPlain(s.outbox, s.next, CreatedEvent(s, d), s'.next);
        }
    }
  }

  lemma {:induction false} ExecOutboxOk(cmds: seq<Command>)
    ensures OutboxOk(Exec(cmds).outbox, Exec(cmds).next)
  {
    if cmds != [] {
      ExecOutboxOk(cmds[..|cmds| - 1]);
      ExecIdsOk(cmds[..|cmds| - 1]);
      OutboxStep(Exec(cmds[..|cmds| - 1]), cmds[|cmds| - 1]);
    }
  }

  /** Each cancellation request in the outbox has exactly one answer there: the
      next entry, which carries the request's id, correlation, order and reason. */
  lemma EveryRequestAnsweredOnce(cmds: seq<Command>, i: nat)
    requires i < |Exec(cmds).outbox| && Exec(cmds).outbox[i].kind.CancellationRequested?
    ensures var outbox := Exec(cmds).outbox;
      && i + 1 < |outbox| && Answers(outbox[i + 1], outbox[i])
      && forall j :: 0 <= j < |outbox| && IsAnswer(outbox[j]) && outbox[j].causationId == Some(outbox[i].eventId)
           ==> j == i + 1
  {
    ExecOutboxOk(cmds);
    var outbox := Exec(cmds).outbox;
    assert AnsweredNext(outbox, i);
    forall j | 0 <= j < |outbox| && IsAnswer(outbox[j]) && outbox[j].causationId == Some(outbox[i].eventId)
      ensures j == i + 1
    {
      assert AnswersPrevious(outbox, j);
      assert outbox[j - 1].eventId == outbox[i].eventId;
    }
  }

  // --------------------------------------------------------- idempotent creation

  /** OrderCreated inserts and orders are in bijection. */
  ghost predicate CreationsMatch(orders: map<Id, Order>, outbox: seq<OutEvent>) {
    && (forall i :: 0 <= i < |outbox| && outbox[i].kind.OrderCreated? ==> outbox[i].orderId in orders)
    && (forall i, j :: 0 <= i < j < |outbox| && outbox[i].kind.OrderCreated? && outbox[j].kind.OrderCreated?
          ==> outbox[i].orderId != outbox[j].orderId)
    && (forall o :: o in orders ==> HasCreation(orders[o], outbox))
  }

  ghost predicate HasCreation(o: Order, outbox: seq<OutEvent>) {
    exists e :: e in outbox && CreatedFor(e, o)
  }

  ghost predicate KeysOk(s: Store) {
    && (forall k :: k in s.keys ==> KeyOk(s, k))
    && (forall k, l :: k in s.keys && l in s.keys && k != l ==> s.keys[k].orderId != s.keys[l].orderId)
  }

  predicate CreatedFor(e: OutEvent, o: Order) {
    e.kind == OrderCreated(o.details) && e.orderId == o.id
  }

  ghost predicate KeyOk(s: Store, k: string)
    requires k in s.keys
  {
    var row := s.keys[k];
    && row.response.Some? && row.orderId == Some(row.response.value.id)
    && row.response.value.id in s.orders
    && row.response.value == SnapshotOf(s.orders[row.response.value.id].(status := Pending))
  }

  /** Anything but a creation: orders keep their details, the outbox gets other events. */
  lemma NoCreation(orders: map<Id, Order>, outbox: seq<OutEvent>, orders': map<Id, Order>, outbox': seq<OutEvent>)
    requires CreationsMatch(orders, outbox) && outbox <= outbox' && orders'.Keys == orders.Keys
    requires forall i :: |outbox| <= i < |outbox'| ==> !outbox'[i].kind.OrderCreated?
    requires forall o :: o in orders ==> orders'[o].details == orders[o].details && orders'[o].id == orders[o].id
    ensures CreationsMatch(orders', outbox')
  {
    forall o | o in orders'
      ensures HasCreation(orders'[o], outbox')
    {
      assert HasCreation(orders[o], outbox);
      var e :| e in outbox && CreatedFor(e, orders[o]);
      assert e in outbox' && CreatedFor(e, orders'[o]);
    }
  }

  lemma OneCreation(orders: map<Id, Order>, outbox: seq<OutEvent>, order: Order, e: OutEvent)
    requires CreationsMatch(orders, outbox) && order.id !in orders && CreatedFor(e, order)
    ensures CreationsMatch(orders[order.id := order], outbox + [e])
  {
    var orders', outbox' := orders[order.id := order], outbox + [e];
    forall o | o in orders'
      ensures HasCreation(orders'[o], outbox')
    {
      if o == order.id {
        assert outbox'[|outbox|] == e;
      } else {
        assert HasCreation(orders[o], outbox);
        var e0 :| e0 in outbox && CreatedFor(e0, orders[o]);
        assert e0 in outbox';
      }
    }
  }

  /** A transaction changes nothing of an existing order but its status. */
  lemma OrdersKeep(s: Store, c: Command, o: Id)
    requires IdsOk(s) && o in s.orders
    ensures o in Do(s, c).0.orders
    ensures Do(s, c).0.orders[o].(status := Pending) == s.orders[o].(status := Pending)
  {
  }

  lemma OnlyCreationCreates(s: Store, c: Command)
    requires !Do(s, c).1.Created?
    ensures var s' := Do(s, c).0;
      && s'.orders.Keys == s.orders.Keys && s'.keys == s.keys
      && (forall i :: |s.outbox| <= i < |s'.outbox| ==> !s'.outbox[i].kind.OrderCreated?)
  {
    if c.Deliver? && c.commits {
      FinalNeverThrows(s, c);
    }
  }

  lemma CreationStep(s: Store, c: Command)
    requires IdsOk(s) && CreationsMatch(s.orders, s.outbox)
    ensures CreationsMatch(Do(s, c).0.orders, Do(s, c).0.outbox)
  {
    var (s', r) := Do(s, c);
    if r.Created? {
      OneCreation(s.orders, s.outbox, NewOrder(s, c.details, c.at), CreatedEvent(s, c.details));
    } else {
      OnlyCreationCreates(s, c);
      OutboxGrows(s, c);
      forall o | o in s.orders
        ensures s'.orders[o].details == s.orders[o].details && s'.orders[o].id == s.orders[o].id
      {
        OrdersKeep(s, c, o);
      }
      NoCreation(s.orders, s.outbox, s'.orders, s'.outbox);
    }
  }

  lemma KeyStays(s: Store, c: Command, k: string)
    requires IdsOk(s) && k in s.keys && KeyOk(s, k)
    ensures k in Do(s, c).0.keys && Do(s, c).0.keys[k] == s.keys[k] && KeyOk(Do(s, c).0, k)
  {
    OrdersKeep(s, c, s.keys[k].response.value.id);
  }

  lemma KeysStep(s: Store, c: Command)
    requires IdsOk(s) && KeysOk(s)
    ensures KeysOk(Do(s, c).0)
  {
    var (s', r) := Do(s, c);
    forall k | k in s.keys
      ensures s'.keys[k] == s.keys[k] && KeyOk(s', k)
    {
      KeyStays(s, c, k);
    }
    if r.Created? && c.idem.Some? {
      var key := c.idem.value.key;
      assert s'.keys.Keys == s.keys.Keys + {key};
      assert KeyOk(s', key);
      assert s'.keys[key].orderId == Some(Fresh(s.next));
    } else {
      assert s'.keys == s.keys;
    }
  }

  /** Orders and OrderCreated events match one to one, every key row has a
      response, and different keys made different orders. */
  lemma {:induction false} CreationsAndKeys(cmds: seq<Command>)
    ensures CreationsMatch(Exec(cmds).orders, Exec(cmds).outbox)
    ensures KeysOk(Exec(cmds))
  {
    if cmds != [] {
      CreationsAndKeys(cmds[..|cmds| - 1]);
      ExecIdsOk(cmds[..|cmds| - 1]);
      CreationStep(Exec(cmds[..|cmds| - 1]), cmds[|cmds| - 1]);
      KeysStep(Exec(cmds[..|cmds| - 1]), cmds[|cmds| - 1]);
    }
  }

  lemma {:induction false} KeyRowsStay(cmds: seq<Command>, i: nat, j: nat, k: string)
    requires i <= j <= |cmds| && k in Exec(cmds[..i]).keys
    ensures k in Exec(cmds[..j]).keys && Exec(cmds[..j]).keys[k] == Exec(cmds[..i]).keys[k]
    decreases j - i
  {
    if i < j {
      KeyRowsStay(cmds, i, j - 1, k);
      ExecPrefix(cmds, j - 1);
    }
  }

  /** `cmds[i]` is a call with this key that returned a response. */
  ghost predicate Succeeds(cmds: seq<Command>, i: nat, idem: Idempotency) {
    && i < |cmds| && cmds[i].CreateOrder? && cmds[i].idem == Some(idem)
    && (OutcomeAt(cmds, i).Created? || OutcomeAt(cmds, i).Replayed?)
  }

  function ResponseAt(cmds: seq<Command>, i: nat): Snapshot
    requires i < |cmds| && (OutcomeAt(cmds, i).Created? || OutcomeAt(cmds, i).Replayed?)
  {
    if OutcomeAt(cmds, i).Created? then OutcomeAt(cmds, i).response else OutcomeAt(cmds, i).stored
  }

  lemma SucceededKeyIsStored(cmds: seq<Command>, i: nat, idem: Idempotency)
    requires Succeeds(cmds, i, idem)
    ensures var s := Exec(cmds[..i + 1]);
      && idem.key in s.keys && s.keys[idem.key].requestHash == idem.requestHash
      && s.keys[idem.key].response == Some(ResponseAt(cmds, i))
  {
    ExecPrefix(cmds, i);
  }

  /** All successful calls with one key had one request hash and got one response,
      and only the first of them created anything. */
  lemma OneKeyOneResponse(cmds: seq<Command>, i: nat, j: nat, first: Idempotency, second: Idempotency)
    requires i < j && Succeeds(cmds, i, first) && Succeeds(cmds, j, second) && first.key == second.key
    ensures first.requestHash == second.requestHash
    ensures OutcomeAt(cmds, j).Replayed? && ResponseAt(cmds, j) == ResponseAt(cmds, i)
    ensures Exec(cmds[..j + 1]) == Exec(cmds[..j])
  {
    SucceededKeyIsStored(cmds, i, first);
    KeyRowsStay(cmds, i + 1, j, first.key);
    ExecPrefix(cmds, j);
  }

  /** The branch for a key row without a response is unreachable, and a first use of a key succeeds. */
  lemma NeverStillProcessing(cmds: seq<Command>, i: nat)
    requires i < |cmds| && cmds[i].CreateOrder? && cmds[i].commits
    ensures OutcomeAt(cmds, i) != StillProcessing
    ensures cmds[i].idem.Some? && cmds[i].idem.value.key !in Exec(cmds[..i]).keys ==> OutcomeAt(cmds, i).Created?
  {
    CreationsAndKeys(cmds[..i]);
    if cmds[i].idem.Some? && cmds[i].idem.value.key in Exec(cmds[..i]).keys {
      assert KeyOk(Exec(cmds[..i]), cmds[i].idem.value.key);
    }
  }
}
