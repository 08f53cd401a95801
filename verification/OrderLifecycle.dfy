/** The order rules, free of any storage:
    app/order-service/src/modules/orders/order-state-machine.ts, order-cancellation.ts
    and order-final-event.factory.ts. */
module OrderLifecycle {
  import opened Common

  /** `Fresh` ids come from randomUUID() or the database; every call yields a new one.
      `External` ids are chosen by other services. */
  datatype Id = Fresh(n: nat) | External(text: string)

  datatype OrderStatus =
    Pending | RiskApproved | RiskRejected | PaymentAuthorized | PaymentFailed | Confirmed | Cancelled

  datatype LifecycleType = OrderRiskApproved | OrderRiskRejected | PaymentAuthorizedEvent | PaymentFailedEvent

  /** `reason` is used by the rejecting types, `paymentId` by PaymentAuthorized. */
  datatype LifecycleEvent = LifecycleEvent(eventId: Id, eventType: LifecycleType, correlationId: Id,
                                           orderId: Id, reason: string, paymentId: string)

  datatype FinalType = OrderConfirmedType | OrderCancelledType

  datatype Transition = Allowed(to: OrderStatus, finalType: Option<FinalType>) | InvalidTransition

  function DecideOrderTransition(current: OrderStatus, eventType: LifecycleType): Transition {
    if current == Pending && eventType == OrderRiskApproved then Allowed(RiskApproved, None)
    else if current == Pending && eventType == OrderRiskRejected then Allowed(Cancelled, Some(OrderCancelledType))
    else if current == RiskApproved && eventType == PaymentAuthorizedEvent then
      Allowed(Confirmed, Some(OrderConfirmedType))
    else if current == RiskApproved && eventType == PaymentFailedEvent then Allowed(Cancelled, Some(OrderCancelledType))
    else InvalidTransition
  }

  datatype RejectedReason = AlreadyCancelled | AlreadyConfirmed | InvalidStatus

  datatype CancellationDecision = Accepted | Rejected(reason: RejectedReason)

  function DecideOrderCancellation(current: OrderStatus): CancellationDecision {
    if current == Pending || current == RiskApproved then Accepted
    else if current == Cancelled then Rejected(AlreadyCancelled)
    else if current == Confirmed then Rejected(AlreadyConfirmed)
    else Rejected(InvalidStatus)
  }

  datatype CancelledBy = ByRisk | ByPayment | ByUser | ByOperator

  datatype Requester = User | Operator

  datatype Details = Details(userId: string, currency: string, totalCents: int, itemCount: int)

  datatype Order = Order(id: Id, details: Details, status: OrderStatus, createdAt: int)

  datatype Kind =
    | OrderCreated(details: Details)
    | OrderConfirmed(confirmed: Details, paymentId: string)
    | OrderCancelled(who: CancelledBy, reason: string)
    | CancellationRequested(requester: Requester, reason: string)
    | CancellationRejected(rejectedFor: Requester, reason: string, currentStatus: OrderStatus, why: RejectedReason)

  /** An event order-service puts into its outbox. */
  datatype OutEvent = OutEvent(eventId: Id, kind: Kind, correlationId: Id, causationId: Option<Id>, orderId: Id)

  function TypeOfFinal(k: Kind): Option<FinalType> {
    match k
    case OrderConfirmed(_, _) => Some(OrderConfirmedType)
    case OrderCancelled(_, _) => Some(OrderCancelledType)
    case _ => None
  }

  /** `asFinalOrderSourceEvent` followed by `createFinalOrderEvent`; None is the thrown error. */
  function CreateFinalOrderEvent(order: Order, source: LifecycleEvent, eventId: Id): Option<OutEvent> {
    if source.eventType == OrderRiskApproved then None
    else
      Some(OutEvent(eventId,
        if source.eventType == PaymentAuthorizedEvent then OrderConfirmed(order.details, source.paymentId)
        else OrderCancelled(if source.eventType == OrderRiskRejected then ByRisk else ByPayment, source.reason),
        source.correlationId, Some(source.eventId), order.id))
  }

  function CreateRequested(order: Order, reason: string, who: Requester, eventId: Id, correlationId: Id): OutEvent {
    OutEvent(eventId, CancellationRequested(who, reason), correlationId, None, order.id)
  }

  function CreateUserCancelled(order: Order, reason: string, who: Requester, requested: OutEvent, eventId: Id)
    : OutEvent
  {
    OutEvent(eventId, OrderCancelled(if who == User then ByUser else ByOperator, reason),
             requested.correlationId, Some(requested.eventId), order.id)
  }

  function CreateCancellationRejected(order: Order, reason: string, who: Requester, requested: OutEvent,
                                      why: RejectedReason, eventId: Id): OutEvent
  {
    OutEvent(eventId, CancellationRejected(who, reason, order.status, why),
             requested.correlationId, Some(requested.eventId), order.id)
  }

  /** The factory looks only at the source event, the state machine announced a
      type of its own: they always agree, so the factory's guard never throws. */
  lemma FinalEventMatchesDecision(order: Order, source: LifecycleEvent, eventId: Id)
    ensures var d := DecideOrderTransition(order.status, source.eventType);
      d.Allowed? && d.finalType.Some? ==>
        && CreateFinalOrderEvent(order, source, eventId).Some?
        && TypeOfFinal(CreateFinalOrderEvent(order, source, eventId).value.kind) == d.finalType
        && (d.finalType == Some(OrderConfirmedType) <==> d.to == Confirmed)
        && (d.finalType == Some(OrderCancelledType) <==> d.to == Cancelled)
  {
  }
}
