/** Which status a stream of commands gives an order and what each command answers, said without
    the decision functions. */
module OrdersAnswers {
  import opened Common
  import opened OrderLifecycle
  import opened OrdersRepository
  import opened OrdersTheorems

  // --------------------------------------------------------- the status of an order

  /** Takes an order out of PENDING. */
  predicate Settles(x: Input) {
    x == Event(OrderRiskApproved) || x == Event(OrderRiskRejected) || x == Cancellation
  }

  /** Ends an approved order. */
  predicate Ends(x: Input) {
    x == Event(PaymentAuthorizedEvent) || x == Event(PaymentFailedEvent) || x == Cancellation
  }

  function FirstSettling(xs: seq<Input>, from: nat): (i: Option<nat>)
    requires from <= |xs|
    ensures i.None? ==> forall k :: from <= k < |xs| ==> !Settles(xs[k])
    ensures i.Some? ==> from <= i.value < |xs| && Settles(xs[i.value])
    ensures i.Some? ==> forall k :: from <= k < i.value ==> !Settles(xs[k])
    decreases |xs| - from
  {
    if from == |xs| then None else if Settles(xs[from]) then Some(from) else FirstSettling(xs, from + 1)
  }

  function FirstEnding(xs: seq<Input>, from: nat): (j: Option<nat>)
    requires from <= |xs|
    ensures j.None? ==> forall k :: from <= k < |xs| ==> !Ends(xs[k])
    ensures j.Some? ==> from <= j.value < |xs| && Ends(xs[j.value])
    ensures j.Some? ==> forall k :: from <= k < j.value ==> !Ends(xs[k])
    decreases |xs| - from
  {
    if from == |xs| then None else if Ends(xs[from]) then Some(from) else FirstEnding(xs, from + 1)
  }

  /** The first input that settles the order decides. A rejection or a cancellation cancels it; an
      approval leaves it to the first payment result or cancellation after that. */
  function StatusFrom(xs: seq<Input>): OrderStatus {
    var i := FirstSettling(xs, 0);
    if i.None? then Pending
    else if xs[i.value] != Event(OrderRiskApproved) then Cancelled
    else
      var j := FirstEnding(xs, i.value + 1);
      if j.None? then RiskApproved
      else if xs[j.value] == Event(PaymentAuthorizedEvent) then Confirmed
      else Cancelled
  }

  lemma {:induction false} SettlingLater(xs: seq<Input>, from: nat, x: Input)
    requires from <= |xs|
    ensures var i := FirstSettling(xs, from);
      FirstSettling(xs + [x], from) == if i.Some? then i else if Settles(x) then Some(|xs|) else None
    decreases |xs| - from
  {
    if from < |xs| && !Settles(xs[from]) {
      SettlingLater(xs, from + 1, x);
    }
  }

  lemma {:induction false} EndingLater(xs: seq<Input>, from: nat, x: Input)
    requires from <= |xs|
    ensures var j := FirstEnding(xs, from);
      FirstEnding(xs + [x], from) == if j.Some? then j else if Ends(x) then Some(|xs|) else None
    decreases |xs| - from
  {
    if from < |xs| && !Ends(xs[from]) {
      EndingLater(xs, from + 1, x);
    }
  }

  lemma NextFrom(xs: seq<Input>, x: Input)
    ensures StatusFrom(xs + [x]) == NextStatus(StatusFrom(xs), x)
  {
    SettlingLater(xs, 0, x);
    var i := FirstSettling(xs, 0);
    if i.Some? {
      EndingLater(xs, i.value + 1, x);
    }
  }

  lemma {:induction false} FoldIsStatusFrom(xs: seq<Input>)
    ensures Fold(xs) == StatusFrom(xs)
  {
    if xs != [] {
      var before, last := xs[..|xs| - 1], xs[|xs| - 1];
      FoldIsStatusFrom(before);
      NextFrom(before, last);
      assert xs == before + [last];
    }
  }

  /** The status of every order after every stream: what its own first deliveries and
      cancellations, in their order, make of it. */
  lemma StatusFollowsTheStream(cmds: seq<Command>, o: Id)
    requires o in Exec(cmds).orders
    ensures Exec(cmds).orders[o].status == StatusFrom(OwnStream(cmds, o))
  {
    StatusIsTheFold(cmds, o);
    FoldIsStatusFrom(OwnStream(cmds, o));
  }

  // ------------------------------------------------------------ the answer to a delivery

  /** The status an event moves an order to; None if the order stays. */
  ghost predicate Moves(from: OrderStatus, t: LifecycleType, to: OrderStatus) {
    || (from == Pending && t == OrderRiskApproved && to == RiskApproved)
    || (from == Pending && t == OrderRiskRejected && to == Cancelled)
    || (from == RiskApproved && t == PaymentAuthorizedEvent && to == Confirmed)
    || (from == RiskApproved && t == PaymentFailedEvent && to == Cancelled)
  }

  /** The event that tells the rest of the system how the order ended. */
  ghost predicate Announces(final: OutEvent, order: Order, e: LifecycleEvent) {
    && final.orderId == order.id && final.causationId == Some(e.eventId) && final.correlationId == e.correlationId
    && match e.eventType
       case PaymentAuthorizedEvent => final.kind == OrderConfirmed(order.details, e.paymentId)
       case PaymentFailedEvent => final.kind == OrderCancelled(ByPayment, e.reason)
       case OrderRiskRejected => final.kind == OrderCancelled(ByRisk, e.reason)
       case OrderRiskApproved => false
  }

  /** A committed delivery is a duplicate exactly if its id was delivered before, and unknown exactly
      if there is no such order yet. */
  lemma DeliveryIsLookedUp(cmds: seq<Command>, i: nat)
    requires i < |cmds| && cmds[i].Deliver? && cmds[i].commits
    ensures var s, e, r := Exec(cmds[..i]), cmds[i].event, OutcomeAt(cmds, i);
      && (r == DuplicateEvent <==> e.eventId in Delivered(cmds[..i]))
      && (r == UnknownOrder <==> e.eventId !in Delivered(cmds[..i]) && e.orderId !in s.orders)
  {
    ProcessedIsDelivered(cmds[..i]);
    FinalNeverThrows(Exec(cmds[..i]), cmds[i]);
  }

  /** A first delivery to an existing order is APPLIED exactly if the event moves an order in that
      status, and then to the status it must have; it announces an end exactly if the order has
      ended. Otherwise it is refused with the status, and the order stays. */
  lemma DeliveryMovesTheOrder(cmds: seq<Command>, i: nat)
    requires i < |cmds| && cmds[i].Deliver? && cmds[i].commits
    requires cmds[i].event.eventId !in Delivered(cmds[..i]) && cmds[i].event.orderId in Exec(cmds[..i]).orders
    ensures var s, s', e, r := Exec(cmds[..i]), Exec(cmds[..i + 1]), cmds[i].event, OutcomeAt(cmds, i);
      var order := s.orders[e.orderId];
      && e.orderId in s'.orders
      && (r.Applied? <==> exists to :: Moves(order.status, e.eventType, to))
      && (r.Applied? ==>
            && Moves(order.status, e.eventType, r.status) && r.previous == order.status
            && s'.orders == s.orders[e.orderId := order.(status := r.status)]
            && (r.finalEvent.Some? <==> r.status in {Confirmed, Cancelled})
            && (r.finalEvent.Some? ==> Announces(r.finalEvent.value, order, e))
            && s'.outbox == s.outbox + if r.finalEvent.Some? then [r.finalEvent.value] else [])
      && (!r.Applied? ==>
            r == InvalidTransitionFrom(order.status) && s'.orders == s.orders && s'.outbox == s.outbox)
  {
    ProcessedIsDelivered(cmds[..i]);
    ExecPrefix(cmds, i);
    ExecIdsOk(cmds[..i]);
    DeliveredOnce(Exec(cmds[..i]), cmds[i].event, cmds[i].at);
  }

  lemma DeliveredOnce(s: Store, e: LifecycleEvent, now: Time)
    requires IdsOk(s) && e.eventId !in s.processed && e.orderId in s.orders
    ensures var (s', r) := ProcessLifecycle(s, e, now);
      var order := s.orders[e.orderId];
      && (r.Applied? <==> exists to :: Moves(order.status, e.eventType, to))
      && (r.Applied? ==>
            && Moves(order.status, e.eventType, r.status) && r.previous == order.status
            && s'.orders == s.orders[e.orderId := order.(status := r.status)]
            && (r.finalEvent.Some? <==> r.status in {Confirmed, Cancelled})
            && (r.finalEvent.Some? ==> Announces(r.finalEvent.value, order, e))
            && s'.outbox == s.outbox + if r.finalEvent.Some? then [r.finalEvent.value] else [])
      && (!r.Applied? ==>
            r == InvalidTransitionFrom(order.status) && s'.orders == s.orders && s'.outbox == s.outbox)
  {
    FinalNeverThrows(s, Deliver(e, now, true));
    var order := s.orders[e.orderId];
    var r := ProcessLifecycle(s, e, now).1;
    if r.Applied? {
      assert Moves(order.status, e.eventType, r.status);
    }
  }

  // -------------------------------------------------------- the answer to a cancellation

  /** A cancellation is accepted exactly while the order is open, and cancels it; an ended order
      stays as it is and the rejection says how it ended. Either way the request is on record, in
      front of its answer. */
  lemma CancellationAnswers(cmds: seq<Command>, i: nat)
    requires i < |cmds| && cmds[i].CancelOrder? && cmds[i].commits && cmds[i].orderId in Exec(cmds[..i]).orders
    ensures var s, s', c, r := Exec(cmds[..i]), Exec(cmds[..i + 1]), cmds[i], OutcomeAt(cmds, i);
      var order := s.orders[c.orderId];
      && (r.CancelAccepted? <==> order.status in {Pending, RiskApproved})
      && (r.CancelRejected? <==> order.status in {Confirmed, Cancelled})
      && (r.CancelAccepted? ==>
            && s'.orders == s.orders[c.orderId := order.(status := Cancelled)]
            && r.before == order.status && s'.outbox == s.outbox + [r.requested, r.final]
            && r.requested.kind == CancellationRequested(c.who, c.reason)
            && r.final.kind == OrderCancelled(if c.who == User then ByUser else ByOperator, c.reason))
      && (r.CancelRejected? ==>
            && s'.orders == s.orders && s'.outbox == s.outbox + [r.request, r.answer]
            && r.request.kind == CancellationRequested(c.who, c.reason)
            && r.answer.kind == CancellationRejected(c.who, c.reason, order.status,
                                  if order.status == Confirmed then AlreadyConfirmed else AlreadyCancelled))
  {
    ExecPrefix(cmds, i);
    OneFinalEvent(cmds[..i], cmds[i].orderId);
  }

  // ------------------------------------------------------------- the answer to a creation

  /** A creation with an unused key, or without one, makes a PENDING order with the requested
      details under an id nobody had, and answers with it. */
  lemma CreationAnswers(cmds: seq<Command>, i: nat)
    requires i < |cmds| && cmds[i].CreateOrder? && cmds[i].commits
    requires cmds[i].idem.Some? ==> cmds[i].idem.value.key !in Exec(cmds[..i]).keys
    ensures var s, s', c, r := Exec(cmds[..i]), Exec(cmds[..i + 1]), cmds[i], OutcomeAt(cmds, i);
      && r.Created? && r.response.id !in s.orders
      && r.response == Snapshot(r.response.id, Pending, c.details, c.at)
      && s'.orders == s.orders[r.response.id := Order(r.response.id, c.details, Pending, c.at)]
      && |s'.outbox| == |s.outbox| + 1 && s'.outbox[..|s.outbox|] == s.outbox
      && s'.outbox[|s.outbox|].kind == OrderCreated(c.details) && s'.outbox[|s.outbox|].orderId == r.response.id
  {
    ExecPrefix(cmds, i);
    ExecIdsOk(cmds[..i]);
    var s, s' := Exec(cmds[..i]), Exec(cmds[..i + 1]);
    assert s'.outbox == s.outbox + [CreatedEvent(s, cmds[i].details)];
  }

  /** After a successful call with a key, a call with the same key answers with the same response if
      its request has the same hash, and with a conflict if not; neither changes anything. */
  lemma UsedKeyAnswers(cmds: seq<Command>, i: nat, j: nat, first: Idempotency)
    requires i < j < |cmds| && Succeeds(cmds, i, first)
    requires cmds[j].CreateOrder? && cmds[j].commits && cmds[j].idem.Some? && cmds[j].idem.value.key == first.key
    ensures OutcomeAt(cmds, j) == if cmds[j].idem.value.requestHash == first.requestHash
                                  then Replayed(ResponseAt(cmds, i)) else HashConflict
    ensures Exec(cmds[..j + 1]) == Exec(cmds[..j])
  {
    SucceededKeyIsStored(cmds, i, first);
    KeyRowsStay(cmds, i + 1, j, first.key);
    ExecPrefix(cmds, j);
  }

  /** An order keeps its id, its details and the time of its creation whatever happens to it. */
  lemma {:induction false} OrderKeepsItsDetails(cmds: seq<Command>, i: nat, j: nat, o: Id)
    requires i <= j <= |cmds| && o in Exec(cmds[..i]).orders
    ensures o in Exec(cmds[..j]).orders
    ensures Exec(cmds[..j]).orders[o] == Exec(cmds[..i]).orders[o].(status := Exec(cmds[..j]).orders[o].status)
    decreases j - i
  {
    if i < j {
      OrderKeepsItsDetails(cmds, i, j - 1, o);
      ExecPrefix(cmds, j - 1);
      ExecIdsOk(cmds[..j - 1]);
      OrdersKeep(Exec(cmds[..j - 1]), cmds[j - 1], o);
    }
  }
}
