/** The order store of app/order-service/src/modules/orders/orders.repository.ts.
    A method is one PostgreSQL transaction; the functions above the class say what
    a transaction does to the tables, and the class does it table by table. */
module OrdersRepository {
  import opened Common
  import opened OrderLifecycle

  type Time = int

  datatype Snapshot = Snapshot(id: Id, status: OrderStatus, details: Details, createdAt: Time)

  datatype KeyRow = KeyRow(requestHash: string, response: Option<Snapshot>, orderId: Option<Id>)

  datatype Idempotency = Idempotency(key: string, requestHash: string)

  /** `outbox` lists every outbox insert ever made; `next` numbers the fresh ids. */
  datatype Store = Store(orders: map<Id, Order>, processed: map<Id, Time>, keys: map<string, KeyRow>,
                         outbox: seq<OutEvent>, next: nat)

  datatype Outcome =
    | Applied(previous: OrderStatus, status: OrderStatus, finalEvent: Option<OutEvent>)
    | DuplicateEvent
    | UnknownOrder
    | InvalidTransitionFrom(current: OrderStatus)
    | CancelAccepted(before: OrderStatus, requested: OutEvent, final: OutEvent)
    | CancelRejected(request: OutEvent, answer: OutEvent)
    | Created(response: Snapshot)
    | Replayed(stored: Snapshot)
    | HashConflict
    | StillProcessing
    | Threw

  const EmptyStore: Store := Store(map[], map[], map[], [], 0)

  function SnapshotOf(o: Order): Snapshot {
    Snapshot(o.id, o.status, o.details, o.createdAt)
  }

  // ------------------------------------------------- what the transactions do

  function ProcessLifecycle(s: Store, e: LifecycleEvent, now: Time): (Store, Outcome) {
    if e.eventId in s.processed then (s, DuplicateEvent)
    else
      var seen := s.(processed := s.processed[e.eventId := now]);
      if e.orderId !in s.orders then (seen, UnknownOrder)
      else
        var order := s.orders[e.orderId];
        match DecideOrderTransition(order.status, e.eventType)
        case InvalidTransition => (seen, InvalidTransitionFrom(order.status))
        case Allowed(to, finalType) =>
          var updated := order.(status := to);
          var saved := seen.(orders := s.orders[e.orderId := updated]);
          if finalType.None? then (saved, Applied(order.status, to, None))
          else
            match CreateFinalOrderEvent(updated, e, Fresh(s.next))
            case None => (s, Threw)
            case Some(final) =>
              (saved.(outbox := s.outbox + [final], next := s.next + 1), Applied(order.status, to, Some(final)))
  }

  function Cancel(s: Store, orderId: Id, reason: string, who: Requester): (Store, Outcome) {
    if orderId !in s.orders then (s, UnknownOrder)
    else
      var order := s.orders[orderId];
      var requested := CreateRequested(order, reason, who, Fresh(s.next), Fresh(s.next + 1));
      match DecideOrderCancellation(order.status)
      case Rejected(why) =>
        var answer := CreateCancellationRejected(order, reason, who, requested, why, Fresh(s.next + 2));
        (s.(outbox := s.outbox + [requested, answer], next := s.next + 3), CancelRejected(requested, answer))
      case Accepted =>
        var updated := order.(status := Cancelled);
        var final := CreateUserCancelled(updated, reason, who, requested, Fresh(s.next + 2));
        (s.(orders := s.orders[orderId := updated], outbox := s.outbox + [requested, final], next := s.next + 3),
         CancelAccepted(order.status, requested, final))
  }

  function NewOrder(s: Store, d: Details, now: Time): Order {
    Order(Fresh(s.next), d, Pending, now)
  }

  function CreatedEvent(s: Store, d: Details): OutEvent {
    OutEvent(Fresh(s.next + 1), OrderCreated(d), Fresh(s.next + 2), None, Fresh(s.next))
  }

  function Persist(s: Store, d: Details, now: Time): Store {
    s.(orders := s.orders[Fresh(s.next) := NewOrder(s, d, now)],
       outbox := s.outbox + [CreatedEvent(s, d)], next := s.next + 3)
  }

  function Create(s: Store, d: Details, now: Time, idem: Option<Idempotency>): (Store, Outcome) {
    if idem.Some? && idem.value.key in s.keys then
      var row := s.keys[idem.value.key];
      if row.requestHash != idem.value.requestHash then (s, HashConflict)
      else if row.response.None? then (s, StillProcessing)
      else (s, Replayed(row.response.value))
    else
      var response := SnapshotOf(NewOrder(s, d, now));
      var saved := Persist(s, d, now);
      if idem.None? then (saved, Created(response))
      else
        (saved.(keys := s.keys[idem.value.key := KeyRow(idem.value.requestHash, Some(response), Some(response.id))]),
         Created(response))
  }

  // ------------------------------------------------------------- the repository

  class OrdersRepository {
    var orders: map<Id, Order>
    var processed: map<Id, Time>
    var keys: map<string, KeyRow>
    var outbox: seq<OutEvent>
    var next: nat

    ghost function View(): Store
      reads this
    {
      Store(orders, processed, keys, outbox, next)
    }

    constructor ()
      ensures View() == EmptyStore
    {
      orders, processed, keys, outbox, next := map[], map[], map[], [], 0;
    }

    method RandomUUID() returns (id: Id)
      modifies this`next
      ensures id == Fresh(old(next)) && next == old(next) + 1
    {
      id := Fresh(next);
      next := next + 1;
    }

    method InsertOutbox(e: OutEvent)
      modifies this`outbox
      ensures outbox == old(outbox) + [e]
    {
      outbox := outbox + [e];
    }

    method ProcessLifecycleEvent(e: LifecycleEvent, now: Time) returns (r: Outcome)
      modifies this
      ensures (View(), r) == ProcessLifecycle(old(View()), e, now)
      ensures r.Applied? <==>
              && e.eventId !in old(processed) && e.orderId in old(orders)
              && var before := old(orders)[e.orderId].status;
              || (before == Pending && e.eventType in {OrderRiskApproved, OrderRiskRejected})
              || (before == RiskApproved && e.eventType in {PaymentAuthorizedEvent, PaymentFailedEvent})
      ensures r.Applied? && e.eventType == OrderRiskApproved ==> orders[e.orderId].status == RiskApproved
      ensures r.Applied? && e.eventType == PaymentAuthorizedEvent ==> orders[e.orderId].status == Confirmed
      ensures r.Applied? && e.eventType == OrderRiskRejected ==> orders[e.orderId].status == Cancelled
      ensures r.Applied? && e.eventType == PaymentFailedEvent ==> orders[e.orderId].status == Cancelled
    {
      if e.eventId in processed {
        return DuplicateEvent;
      }
      processed := processed[e.eventId := now];
      if e.orderId !in orders {
        return UnknownOrder;
      }
      var order := orders[e.orderId];
      var decision := DecideOrderTransition(order.status, e.eventType);
      if decision.InvalidTransition? {
        return InvalidTransitionFrom(order.status);
      }
      var updated := order.(status := decision.to);
      orders := orders[e.orderId := updated];
      var finalEvent := None;
      if decision.finalType.Some? {
        FinalEventMatchesDecision(order, e, Fresh(next));
        var id := RandomUUID();
        finalEvent := CreateFinalOrderEvent(updated, e, id);
        InsertOutbox(finalEvent.value);
      }
      r := Applied(order.status, updated.status, finalEvent);
    }

    method CancelOrder(orderId: Id, reason: string, who: Requester) returns (r: Outcome)
      modifies this
      ensures (View(), r) == Cancel(old(View()), orderId, reason, who)
    {
      if orderId !in orders {
        return UnknownOrder;
      }
      var order := orders[orderId];
      var requestId := RandomUUID();
      var correlationId := RandomUUID();
      var requested := CreateRequested(order, reason, who, requestId, correlationId);
      InsertOutbox(requested);
      var answerId := RandomUUID();
      match DecideOrderCancellation(order.status) {
        case Rejected(why) =>
          var answer := CreateCancellationRejected(order, reason, who, requested, why, answerId);
          InsertOutbox(answer);
          r := CancelRejected(requested, answer);
        case Accepted =>
          var updated := order.(status := Cancelled);
          orders := orders[orderId := updated];
          var final := CreateUserCancelled(updated, reason, who, requested, answerId);
          InsertOutbox(final);
          r := CancelAccepted(order.status, requested, final);
      }
      assert outbox == old(outbox) + [outbox[|outbox| - 2], outbox[|outbox| - 1]];
    }

    method PersistPendingOrderWithOutbox(d: Details, now: Time) returns (order: Order)
      modifies this
      ensures View() == Persist(old(View()), d, now) && order == NewOrder(old(View()), d, now)
    {
      var id := RandomUUID();
      order := Order(id, d, Pending, now);
      orders := orders[id := order];
      var eventId := RandomUUID();
      var correlationId := RandomUUID();
      InsertOutbox(OutEvent(eventId, OrderCreated(d), correlationId, None, id));
    }

    /** Inserts the key with no response, creates the order, then fills the response in. */
    method CreatePendingOrderIdempotently(d: Details, now: Time, idem: Idempotency) returns (r: Outcome)
      modifies this
      ensures (View(), r) == Create(old(View()), d, now, Some(idem))
    {
      if idem.key in keys {
        var existing := keys[idem.key];
        if existing.requestHash != idem.requestHash {
          return HashConflict;
        }
        if existing.response.None? {
          return StillProcessing;
        }
        return Replayed(existing.response.value);
      }
      keys := keys[idem.key := KeyRow(idem.requestHash, None, None)];
      var order := PersistPendingOrderWithOutbox(d, now);
      var response := SnapshotOf(order);
      keys := keys[idem.key := KeyRow(idem.requestHash, Some(response), Some(order.id))];
      assert keys == old(keys)[idem.key := KeyRow(idem.requestHash, Some(response), Some(order.id))];
      r := Created(response);
    }
  }
}
