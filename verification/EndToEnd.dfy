/** One OrderRiskApproved event through payment-service's inbox, the broker's log and
    order-service's store: app/payment-service/src/modules/payment/payment.service.ts over
    InboxProtocol, EventId and OrdersRepository. */
module EndToEnd {
  import opened Common
  import opened OrderLifecycle
  import InboxStore
  import Inbox = InboxProtocol
  import InboxFacts = InboxTheorems
  import EventId
  import Orders = OrdersRepository
  import OrdersFacts = OrdersTheorems
  import Answers = OrdersAnswers
  import Retention

  const NAMESPACE := "payment-service:payment-result"

  /** The consumed event. */
  datatype Source = Source(eventId: string, orderId: Id, correlationId: Id)

  /** What the authorizer decides, with the random payment id and the configured reason. */
  datatype Decision = Decision(authorized: bool, paymentId: string, reason: string)

  function PreparePaymentEvent(hash: EventId.Hash, source: Source, d: Decision): LifecycleEvent
    requires EventId.Digests(hash)
  {
    LifecycleEvent(External(EventId.EventIdOf(hash, NAMESPACE, source.eventId)),
                   if d.authorized then PaymentAuthorizedEvent else PaymentFailedEvent,
                   source.correlationId, source.orderId, d.reason, d.paymentId)
  }

  /** A published event with the inbox incarnation and the worker it came from. */
  datatype Record = Record(epoch: nat, token: InboxStore.Token, event: LifecycleEvent)

  datatype Answer = Answer(event: LifecycleEvent, outcome: Orders.Outcome)

  /** `dropped` lists the processed ids that retention removed, once for every removal. */
  datatype World = World(inbox: Inbox.State<LifecycleEvent>, log: seq<Record>, store: Orders.Store,
                         answers: seq<Answer>, dropped: seq<Id>)

  datatype Action =
    | Payment(step: Inbox.Action<LifecycleEvent>)
    | Authorize(token: InboxStore.Token, decision: Option<Decision>)
    | Append(epoch: nat, index: nat)                              // a started effect reaches the broker, maybe again
    | Consume(offset: nat, at: Orders.Time, commits: bool)        // order-service reads the log, in any order
    | OtherCommand(command: OrdersFacts.Command)
    | Cleanup(at: Orders.Time, id: Id, window: Orders.Time)       // one row of a retention batch

  const EMPTY: World := World(Inbox.Init(), [], Orders.EmptyStore, [], [])

  predicate Sent(w: World, token: InboxStore.Token) {
    && token in w.inbox.calls
    && exists i :: 0 <= i < |w.log| && w.log[i].token == token && w.log[i].epoch == w.inbox.calls[token].epoch
  }

  /** The broker acknowledges a publish only after it appended the message. */
  predicate Enabled(w: World, a: Inbox.Action<LifecycleEvent>) {
    && !(a.On? && a.op.Prepare?)
    && (a.On? && a.op.EndEffect? && a.op.ok ==> Sent(w, a.token))
  }

  function Deliver(w: World, c: OrdersFacts.Command): World {
    var (store, outcome) := OrdersFacts.Do(w.store, c);
    w.(store := store, answers := if c.Deliver? && c.commits then w.answers + [Answer(c.event, outcome)] else w.answers)
  }

  function Forget(w: World, at: Orders.Time, id: Id, window: Orders.Time): World {
    var store := Retention.Forget(w.store, at, {id}, window);
    var drops := id in w.store.processed && id !in store.processed;
    w.(store := store, dropped := if drops then w.dropped + [id] else w.dropped)
  }

  ghost function Step(hash: EventId.Hash, source: Source, w: World, a: Action): World
    requires EventId.Digests(hash)
  {
    match a
    case Payment(step) => if Enabled(w, step) then w.(inbox := Inbox.Step(w.inbox, step)) else w
    case Authorize(token, decision) =>
      var outcome := if decision.None? then None else Some(Some(PreparePaymentEvent(hash, source, decision.value)));
      w.(inbox := Inbox.Step(w.inbox, Inbox.On(token, Inbox.Prepare(outcome))))
    case Append(epoch, index) =>
      if epoch < |w.inbox.hist| && index < |w.inbox.hist[epoch].effects| then
        var f := w.inbox.hist[epoch].effects[index];
        if f.value.Some? then w.(log := w.log + [Record(epoch, f.token, f.value.value)]) else w
      else w
    case Consume(offset, at, commits) =>
      if offset < |w.log| then Deliver(w, OrdersFacts.Deliver(w.log[offset].event, at, commits)) else w
    case OtherCommand(command) => Deliver(w, command)
    case Cleanup(at, id, window) => Forget(w, at, id, window)
  }

  ghost function Run(hash: EventId.Hash, source: Source, acts: seq<Action>): World
    requires EventId.Digests(hash)
  {
    if acts == [] then EMPTY
    else Step(hash, source, Run(hash, source, acts[..|acts| - 1]), acts[|acts| - 1])
  }

  // ---------------------------------------------------------------- the payment side

  /** What the authorizer decided in the calls of a run. */
  ghost function Decisions(acts: seq<Action>): set<Decision> {
    set a | a in acts && a.Authorize? && a.decision.Some? :: a.decision.value
  }

  /** The event tells what was decided. */
  predicate Tells(e: LifecycleEvent, d: Decision) {
    && e.paymentId == d.paymentId
    && (d.authorized ==> e.eventType == PaymentAuthorizedEvent)
    && (!d.authorized ==> e.eventType == PaymentFailedEvent && e.reason == d.reason)
  }

  ghost predicate FromSource(hash: EventId.Hash, source: Source, ds: set<Decision>, e: LifecycleEvent)
    requires EventId.Digests(hash)
  {
    && e.eventId == External(EventId.EventIdOf(hash, NAMESPACE, source.eventId))
    && e.orderId == source.orderId && e.correlationId == source.correlationId
    && exists d :: d in ds && Tells(e, d)
  }

  ghost function Prepared(hash: EventId.Hash, source: Source, ds: set<Decision>): Option<LifecycleEvent> -> bool
    requires EventId.Digests(hash)
  {
    (r: Option<LifecycleEvent>) => r.Some? && FromSource(hash, source, ds, r.value)
  }

  lemma PreparedTells(hash: EventId.Hash, source: Source, ds: set<Decision>, d: Decision)
    requires EventId.Digests(hash) && d in ds
    ensures Prepared(hash, source, ds)(Some(PreparePaymentEvent(hash, source, d)))
  {
    assert Tells(PreparePaymentEvent(hash, source, d), d);
  }

  /** The inbox's part of a run is a run of the inbox. */
  ghost predicate InboxRun(hash: EventId.Hash, source: Source, ds: set<Decision>, s: Inbox.State<LifecycleEvent>)
    requires EventId.Digests(hash)
  {
    exists acts :: InboxFacts.PreparesOnly(acts, Prepared(hash, source, ds)) && s == Inbox.Run(Inbox.Init(), acts)
  }

  lemma InboxRunStep(hash: EventId.Hash, source: Source, ds: set<Decision>, s: Inbox.State<LifecycleEvent>,
                     a: Inbox.Action<LifecycleEvent>)
    requires EventId.Digests(hash) && InboxRun(hash, source, ds, s)
    requires a.On? && a.op.Prepare? && a.op.outcome.Some? ==> Prepared(hash, source, ds)(a.op.outcome.value)
    ensures InboxRun(hash, source, ds, Inbox.Step(s, a))
  {
    var acts :| InboxFacts.PreparesOnly(acts, Prepared(hash, source, ds)) && s == Inbox.Run(Inbox.Init(), acts);
    Inbox.RunStep(Inbox.Init(), acts, a);
    assert InboxFacts.PreparesOnly(acts + [a], Prepared(hash, source, ds));
  }

  lemma {:induction false} InboxRuns(hash: EventId.Hash, source: Source, ds: set<Decision>, acts: seq<Action>)
    requires EventId.Digests(hash) && Decisions(acts) <= ds
    ensures InboxRun(hash, source, ds, Run(hash, source, acts).inbox)
  {
    if acts == [] {
      var none: seq<Inbox.Action<LifecycleEvent>> := [];
      assert InboxFacts.PreparesOnly(none, Prepared(hash, source, ds)) && Inbox.Init() == Inbox.Run(Inbox.Init(), none);
    } else {
      var w, a := Run(hash, source, acts[..|acts| - 1]), acts[|acts| - 1];
      InboxRuns(hash, source, ds, acts[..|acts| - 1]);
      match a
      case Payment(step) =>
        if Enabled(w, step) {
          InboxRunStep(hash, source, ds, w.inbox, step);
        }
      case Authorize(token, decision) =>
        var outcome := if decision.None? then None else Some(Some(PreparePaymentEvent(hash, source, decision.value)));
        if decision.Some? {
          PreparedTells(hash, source, ds, decision.value);
        }
        InboxRunStep(hash, source, ds, w.inbox, Inbox.On(token, Inbox.Prepare(outcome)));
      case _ =>
    }
  }

  /** What the theorems need to know of the inbox. */
  lemma InboxKnown(hash: EventId.Hash, source: Source, ds: set<Decision>, s: Inbox.State<LifecycleEvent>)
    requires EventId.Digests(hash) && InboxRun(hash, source, ds, s)
    ensures Inbox.Inv(s) && InboxFacts.Values(s, Prepared(hash, source, ds)) && InboxFacts.Agreement(s)
  {
    var p := Prepared(hash, source, ds);
    var acts :| InboxFacts.PreparesOnly(acts, p) && s == Inbox.Run(Inbox.Init(), acts);
    Inbox.RunKeepsInv(acts);
    InboxFacts.RunKeepsValues(acts, p);
    InboxFacts.EffectsAgreeExactlyWhen(p);
  }

  /** Every record stems from a started effect of its incarnation. */
  ghost predicate Stems(s: Inbox.State<LifecycleEvent>, r: Record) {
    r.epoch < |s.hist| && Inbox.Effect(r.token, Some(r.event)) in s.hist[r.epoch].effects
  }

  ghost predicate LogStems(w: World) {
    forall r :: r in w.log ==> Stems(w.inbox, r)
  }

  /** Every finished effect is in the log. */
  ghost predicate FinishedSent(w: World) {
    forall e, f :: 0 <= e < |w.inbox.hist| && f in w.inbox.hist[e].finished ==>
      FinishedOne(w, e, f)
  }

  ghost predicate FinishedOne(w: World, e: nat, f: Inbox.Effect<LifecycleEvent>) {
    f.value.Some? && Record(e, f.token, f.value.value) in w.log
  }

  /** Effects stay on record. */
  lemma EffectsStay(s: Inbox.State<LifecycleEvent>, a: Inbox.Action<LifecycleEvent>, e: nat,
                    f: Inbox.Effect<LifecycleEvent>)
    requires e < |s.hist| && f in s.hist[e].effects
    ensures e < |Inbox.Step(s, a).hist| && f in Inbox.Step(s, a).hist[e].effects
  {
  }

  ghost predicate EndsEffect(s: Inbox.State<LifecycleEvent>, a: Inbox.Action<LifecycleEvent>, e: nat,
                             f: Inbox.Effect<LifecycleEvent>)
  {
    && a.On? && a.op.EndEffect? && a.op.ok && f.token == a.token
    && a.token in s.calls && s.calls[a.token].pc == Inbox.InEffect(f.value) && s.calls[a.token].epoch == e
  }

  /** An effect finishes only at the end of its own call. */
  lemma FinishedBy(s: Inbox.State<LifecycleEvent>, a: Inbox.Action<LifecycleEvent>, e: nat,
                   f: Inbox.Effect<LifecycleEvent>)
    requires e < |Inbox.Step(s, a).hist| && f in Inbox.Step(s, a).hist[e].finished
    ensures e < |s.hist|
    ensures f in s.hist[e].finished || EndsEffect(s, a, e, f)
  {
  }

  lemma StepKeepsStems(w: World, a: Inbox.Action<LifecycleEvent>)
    requires LogStems(w)
    ensures LogStems(w.(inbox := Inbox.Step(w.inbox, a)))
  {
    forall r | r in w.log ensures Stems(Inbox.Step(w.inbox, a), r) {
      EffectsStay(w.inbox, a, r.epoch, Inbox.Effect(r.token, Some(r.event)));
    }
  }

  lemma EndedWasSent(w: World, a: Inbox.Action<LifecycleEvent>, e: nat, f: Inbox.Effect<LifecycleEvent>)
    requires Inbox.Inv(w.inbox) && LogStems(w) && EndsEffect(w.inbox, a, e, f) && Sent(w, a.token)
    ensures FinishedOne(w, e, f)
  {
    var i :| 0 <= i < |w.log| && w.log[i].token == a.token && w.log[i].epoch == w.inbox.calls[a.token].epoch;
    assert Stems(w.inbox, w.log[i]);
    OneEffectPerToken(w.inbox, w.log[i], a.token, f.value);
  }

  lemma StepKeepsFinished(w: World, a: Inbox.Action<LifecycleEvent>)
    requires Inbox.Inv(w.inbox) && LogStems(w) && FinishedSent(w)
    requires a.On? && a.op.EndEffect? && a.op.ok ==> Sent(w, a.token)
    ensures FinishedSent(w.(inbox := Inbox.Step(w.inbox, a)))
  {
    var s := Inbox.Step(w.inbox, a);
    forall e, f | 0 <= e < |s.hist| && f in s.hist[e].finished ensures FinishedOne(w, e, f) {
      FinishedBy(w.inbox, a, e, f);
      if f !in w.inbox.hist[e].finished {
        EndedWasSent(w, a, e, f);
      }
    }
  }

  lemma PaymentStep(hash: EventId.Hash, source: Source, ds: set<Decision>, w: World, a: Inbox.Action<LifecycleEvent>)
    requires EventId.Digests(hash) && InboxRun(hash, source, ds, w.inbox) && LogStems(w) && FinishedSent(w)
    requires a.On? && a.op.EndEffect? && a.op.ok ==> Sent(w, a.token)
    ensures var w' := w.(inbox := Inbox.Step(w.inbox, a)); LogStems(w') && FinishedSent(w')
  {
    StepKeepsStems(w, a);
    InboxKnown(hash, source, ds, w.inbox);
    StepKeepsFinished(w, a);
  }

  /** The record of a worker in its effect holds the value of that effect. */
  lemma OneEffectPerToken(s: Inbox.State<LifecycleEvent>, r: Record, token: InboxStore.Token,
                          value: Option<LifecycleEvent>)
    requires Inbox.Inv(s) && Stems(s, r) && r.token == token
    requires token in s.calls && s.calls[token].pc == Inbox.InEffect(value)
    requires r.epoch == s.calls[token].epoch
    ensures value == Some(r.event)
  {
    assert Inbox.CallOk(s, token);
    assert Inbox.HistoryOk(s.hist[r.epoch]);
  }

  lemma {:induction false} LogHolds(hash: EventId.Hash, source: Source, ds: set<Decision>, acts: seq<Action>)
    requires EventId.Digests(hash) && Decisions(acts) <= ds
    ensures LogStems(Run(hash, source, acts)) && FinishedSent(Run(hash, source, acts))
  {
    if acts != [] {
      var init, a := acts[..|acts| - 1], acts[|acts| - 1];
      var w := Run(hash, source, init);
      LogHolds(hash, source, ds, init);
      InboxRuns(hash, source, ds, init);
      match a
      case Payment(step) =>
        if Enabled(w, step) {
          PaymentStep(hash, source, ds, w, step);
        }
      case Authorize(token, decision) =>
        var outcome := if decision.None? then None else Some(Some(PreparePaymentEvent(hash, source, decision.value)));
        PaymentStep(hash, source, ds, w, Inbox.On(token, Inbox.Prepare(outcome)));
      case _ =>
    }
  }

  /** Whatever payment workers crash, lose leases or publish again, and even after the inbox
      row was purged: every published event has the id derived from the source event, is for its
      order and tells what the authorizer decided in some call. Between two purges it is one and
      the same event. */
  lemma PublishedEventsShareOneId(hash: EventId.Hash, source: Source, acts: seq<Action>)
    requires EventId.Digests(hash)
    ensures var log := Run(hash, source, acts).log;
      && (forall r :: r in log ==> FromSource(hash, source, Decisions(acts), r.event))
      && (forall q, r :: q in log && r in log && q.epoch == r.epoch ==> q.event == r.event)
  {
    var w, ds := Run(hash, source, acts), Decisions(acts);
    InboxRuns(hash, source, ds, acts);
    InboxKnown(hash, source, ds, w.inbox);
    LogHolds(hash, source, ds, acts);
    forall r | r in w.log ensures FromSource(hash, source, ds, r.event) {
      assert Stems(w.inbox, r);
      assert Prepared(hash, source, ds)(Inbox.Effect(r.token, Some(r.event)).value);
    }
    forall q, r | q in w.log && r in w.log && q.epoch == r.epoch ensures q.event == r.event {
      assert Stems(w.inbox, q) && Stems(w.inbox, r);
    }
  }

  /** When the inbox row is COMPLETED, the broker has the event it stores. */
  lemma CompletedIsPublished(hash: EventId.Hash, source: Source, acts: seq<Action>)
    requires EventId.Digests(hash)
    ensures var w := Run(hash, source, acts);
      w.inbox.row.Some? && w.inbox.row.value.status == InboxStore.Completed ==>
        w.inbox.row.value.result.Some? && exists r :: r in w.log && r.event == w.inbox.row.value.result.value
  {
    var w, ds := Run(hash, source, acts), Decisions(acts);
    InboxRuns(hash, source, ds, acts);
    InboxKnown(hash, source, ds, w.inbox);
    LogHolds(hash, source, ds, acts);
    if w.inbox.row.Some? && w.inbox.row.value.status == InboxStore.Completed {
      var e := Inbox.Epoch(w.inbox);
      var h := w.inbox.hist[e];
      assert Inbox.HistoryOk(h) && Inbox.RowOk(w.inbox.row.value, h);
      var f :| f in h.finished && f.token == h.completions[0];
      assert f in h.effects && Inbox.Agreed(h, f.value);
      assert Prepared(hash, source, ds)(w.inbox.row.value.result);
      assert FinishedOne(w, e, f);
      assert Record(e, f.token, f.value.value).event == w.inbox.row.value.result.value;
    }
  }

  // ------------------------------------------------------------------ the order side

  predicate IsPaymentFor(e: LifecycleEvent, orderId: Id) {
    e.orderId == orderId && (e.eventType == PaymentAuthorizedEvent || e.eventType == PaymentFailedEvent)
  }

  /** Payment events of an order that changed it. */
  function AppliedPayments(answers: seq<Answer>, orderId: Id): nat {
    if answers == [] then 0
    else
      var last := answers[|answers| - 1];
      AppliedPayments(answers[..|answers| - 1], orderId)
      + if IsPaymentFor(last.event, orderId) && last.outcome.Applied? then 1 else 0
  }

  /** Deliveries of an id that were not recognised as duplicates. */
  function TakenForNew(answers: seq<Answer>, id: Id): nat {
    if answers == [] then 0
    else
      var last := answers[|answers| - 1];
      TakenForNew(answers[..|answers| - 1], id)
      + if last.event.eventId == id && !last.outcome.DuplicateEvent? then 1 else 0
  }

  function Count(ids: seq<Id>, id: Id): nat {
    if ids == [] then 0 else Count(ids[..|ids| - 1], id) + if ids[|ids| - 1] == id then 1 else 0
  }

  /** An applied payment ends its order. */
  ghost predicate PaymentEnds(w: World, orderId: Id) {
    && OrdersFacts.IdsOk(w.store)
    && AppliedPayments(w.answers, orderId) <= 1
    && (AppliedPayments(w.answers, orderId) == 1 ==>
          Ended(w.store, orderId))
  }

  lemma DeliverPayments(w: World, c: OrdersFacts.Command, orderId: Id)
    requires PaymentEnds(w, orderId)
    ensures PaymentEnds(Deliver(w, c), orderId)
  {
    var w' := Deliver(w, c);
    EndedStays(w.store, c, orderId);
    if c.Deliver? && c.commits {
      assert w'.answers[..|w.answers|] == w.answers;
      if IsPaymentFor(c.event, orderId) && OrdersFacts.Do(w.store, c).1.Applied? {
        PaymentEndsOrder(w.store, c.event, c.at);
      }
    }
  }

  ghost predicate Ended(s: Orders.Store, orderId: Id) {
    orderId in s.orders && (s.orders[orderId].status == Confirmed || s.orders[orderId].status == Cancelled)
  }

  lemma EndedStays(s: Orders.Store, c: OrdersFacts.Command, orderId: Id)
    requires OrdersFacts.IdsOk(s)
    ensures OrdersFacts.IdsOk(OrdersFacts.Do(s, c).0)
    ensures Ended(s, orderId) ==> Ended(OrdersFacts.Do(s, c).0, orderId)
  {
    OrdersFacts.StatusStep(s, c, orderId);
  }

  lemma PaymentEndsOrder(s: Orders.Store, e: LifecycleEvent, at: Orders.Time)
    requires IsPaymentFor(e, e.orderId) && Orders.ProcessLifecycle(s, e, at).1.Applied?
    ensures !Ended(s, e.orderId) && Ended(Orders.ProcessLifecycle(s, e, at).0, e.orderId)
  {
  }

  lemma {:induction false} PaymentsEnd(hash: EventId.Hash, source: Source, acts: seq<Action>, orderId: Id)
    requires EventId.Digests(hash)
    ensures PaymentEnds(Run(hash, source, acts), orderId)
  {
    if acts != [] {
      var w, a := Run(hash, source, acts[..|acts| - 1]), acts[|acts| - 1];
      PaymentsEnd(hash, source, acts[..|acts| - 1], orderId);
      match a
      case Consume(offset, at, commits) =>
        if offset < |w.log| {
          DeliverPayments(w, OrdersFacts.Deliver(w.log[offset].event, at, commits), orderId);
        }
      case OtherCommand(command) => DeliverPayments(w, command, orderId);
      case _ =>
    }
  }

  /** Kept ids are what was taken for new and not dropped since. */
  ghost predicate Balanced(w: World, id: Id) {
    TakenForNew(w.answers, id) == Count(w.dropped, id) + if id in w.store.processed then 1 else 0
  }

  lemma DeliverBalances(w: World, c: OrdersFacts.Command, id: Id)
    requires Balanced(w, id)
    ensures Balanced(Deliver(w, c), id)
  {
    var w' := Deliver(w, c);
    if c.Deliver? && c.commits {
      assert w'.answers[..|w.answers|] == w.answers;
      OrdersFacts.FinalNeverThrows(w.store, c);
    }
  }

  lemma CleanupBalances(w: World, at: Orders.Time, row: Id, window: Orders.Time, id: Id)
    requires Balanced(w, id)
    ensures Balanced(Forget(w, at, row, window), id)
  {
    var w' := Forget(w, at, row, window);
    if w'.dropped != w.dropped {
      assert w'.dropped[..|w.dropped|] == w.dropped;
    }
  }

  lemma StepBalances(hash: EventId.Hash, source: Source, w: World, a: Action, id: Id)
    requires EventId.Digests(hash) && Balanced(w, id)
    ensures Balanced(Step(hash, source, w, a), id)
  {
    match a
    case Consume(offset, at, commits) =>
      if offset < |w.log| {
        DeliverBalances(w, OrdersFacts.Deliver(w.log[offset].event, at, commits), id);
      }
    case OtherCommand(command) => DeliverBalances(w, command, id);
    case Cleanup(at, row, window) => CleanupBalances(w, at, row, window, id);
    case _ =>
  }

  /** Order-service takes an event id for new once, and once more for every time retention
      dropped it; all other deliveries are recognised as duplicates. */
  lemma {:induction false} TakenForNewOncePerDrop(hash: EventId.Hash, source: Source, acts: seq<Action>, id: Id)
    requires EventId.Digests(hash)
    ensures Balanced(Run(hash, source, acts), id)
  {
    if acts != [] {
      TakenForNewOncePerDrop(hash, source, acts[..|acts| - 1], id);
      StepBalances(hash, source, Run(hash, source, acts[..|acts| - 1]), acts[|acts| - 1], id);
    }
  }

  /** End to end at most once: all published payment events carry one id, and of all payment
      events for the order, however often delivered, at most one is APPLIED; while
      order-service keeps the id, every delivery of it but one is a duplicate. */
  lemma AtMostOnePaymentApplied(hash: EventId.Hash, source: Source, acts: seq<Action>)
    requires EventId.Digests(hash)
    ensures var w := Run(hash, source, acts);
      var id := External(EventId.EventIdOf(hash, NAMESPACE, source.eventId));
      && (forall r :: r in w.log ==> r.event.eventId == id)
      && AppliedPayments(w.answers, source.orderId) <= 1
      && (id !in w.dropped ==> TakenForNew(w.answers, id) <= 1)
  {
    var w := Run(hash, source, acts);
    var id := External(EventId.EventIdOf(hash, NAMESPACE, source.eventId));
    PublishedEventsShareOneId(hash, source, acts);
    PaymentsEnd(hash, source, acts, source.orderId);
    TakenForNewOncePerDrop(hash, source, acts, id);
    if id !in w.dropped {
      NotCounted(w.dropped, id);
    }
  }

  lemma {:induction false} NotCounted(ids: seq<Id>, id: Id)
    requires id !in ids
    ensures Count(ids, id) == 0
  {
    if ids != [] {
      NotCounted(ids[..|ids| - 1], id);
    }
  }

  // ------------------------------------------------------------------ from decision to order

  /** Payment results for the order reach order-service through this log only. */
  ghost predicate OnlyFromLog(acts: seq<Action>, orderId: Id) {
    forall a :: a in acts && a.OtherCommand? && a.command.Deliver? ==> !IsPaymentFor(a.command.event, orderId)
  }

  /** A final event of the order that a payment caused repeats a decision. */
  ghost predicate Repeats(final: OutEvent, ds: set<Decision>) {
    && (final.kind.OrderConfirmed? ==>
          exists d :: d in ds && d.authorized && d.paymentId == final.kind.paymentId)
    && (final.kind.OrderCancelled? && final.kind.who == ByPayment ==>
          exists d :: d in ds && !d.authorized && d.reason == final.kind.reason)
  }

  ghost predicate HasFinal(outbox: seq<OutEvent>, orderId: Id) {
    exists f :: f in outbox && f.orderId == orderId && f.kind.OrderConfirmed?
  }

  ghost predicate Decided(s: Orders.Store, ds: set<Decision>, orderId: Id) {
    && OrdersFacts.IdsOk(s)
    && (forall f :: f in s.outbox && f.orderId == orderId ==> Repeats(f, ds))
    && (orderId in s.orders && s.orders[orderId].status == Confirmed ==> HasFinal(s.outbox, orderId))
  }

  /** A delivery that changes the order announces an end only as the event says. */
  lemma DeliveryStaysDecided(s: Orders.Store, e: LifecycleEvent, at: Orders.Time, ds: set<Decision>, orderId: Id)
    requires Decided(s, ds, orderId)
    requires IsPaymentFor(e, orderId) ==> exists d :: d in ds && Tells(e, d)
    ensures Decided(Orders.ProcessLifecycle(s, e, at).0, ds, orderId)
  {
    var (s', r) := Orders.ProcessLifecycle(s, e, at);
    OrdersFacts.StatusStep(s, OrdersFacts.Deliver(e, at, true), orderId);
    if e.eventId !in s.processed && e.orderId in s.orders {
      Answers.DeliveredOnce(s, e, at);
      if r.Applied? && r.finalEvent.Some? {
        assert s'.outbox == s.outbox + [r.finalEvent.value];
        assert s'.outbox[|s.outbox|] == r.finalEvent.value;
        FinalRepeats(s.orders[e.orderId], e, r.finalEvent.value, ds, orderId);
      }
      OutboxKeepsFinal(s.outbox, s'.outbox, orderId);
    }
  }

  lemma FinalRepeats(order: Order, e: LifecycleEvent, final: OutEvent, ds: set<Decision>, orderId: Id)
    requires order.id == e.orderId && Answers.Announces(final, order, e)
    requires IsPaymentFor(e, orderId) ==> exists d :: d in ds && Tells(e, d)
    ensures final.orderId == orderId ==> Repeats(final, ds)
  {
    if IsPaymentFor(e, orderId) {
      var d :| d in ds && Tells(e, d);
    }
  }

  lemma OutboxKeepsFinal(outbox: seq<OutEvent>, more: seq<OutEvent>, orderId: Id)
    requires outbox <= more
    ensures HasFinal(outbox, orderId) ==> HasFinal(more, orderId)
  {
    if HasFinal(outbox, orderId) {
      var f :| f in outbox && f.orderId == orderId && f.kind.OrderConfirmed?;
      assert f in more;
    }
  }

  /** Nothing but a delivery brings a payment into the outbox or confirms an order. */
  lemma OthersStayDecided(s: Orders.Store, c: OrdersFacts.Command, ds: set<Decision>, orderId: Id)
    requires Decided(s, ds, orderId) && !c.Deliver?
    ensures Decided(OrdersFacts.Do(s, c).0, ds, orderId)
  {
    var (s', r) := OrdersFacts.Do(s, c);
    OrdersFacts.StatusStep(s, c, orderId);
    OrdersFacts.OutboxGrows(s, c);
    OutboxKeepsFinal(s.outbox, s'.outbox, orderId);
    NoPaymentAdded(s, c);
    forall f | f in s'.outbox && f.orderId == orderId ensures Repeats(f, ds) {
      var i := IndexIn(s'.outbox, f);
      if i < |s.outbox| {
        assert s.outbox[i] == f;
      }
    }
  }

  lemma NoPaymentAdded(s: Orders.Store, c: OrdersFacts.Command)
    requires !c.Deliver?
    ensures var outbox := OrdersFacts.Do(s, c).0.outbox;
      forall i :: |s.outbox| <= i < |outbox| ==>
        !outbox[i].kind.OrderConfirmed? && !(outbox[i].kind.OrderCancelled? && outbox[i].kind.who == ByPayment)
  {
  }

  lemma CommandStaysDecided(w: World, c: OrdersFacts.Command, ds: set<Decision>, orderId: Id)
    requires Decided(w.store, ds, orderId)
    requires c.Deliver? && IsPaymentFor(c.event, orderId) ==> exists d :: d in ds && Tells(c.event, d)
    ensures Decided(Deliver(w, c).store, ds, orderId)
  {
    if !c.Deliver? {
      OthersStayDecided(w.store, c, ds, orderId);
    } else if c.commits {
      DeliveryStaysDecided(w.store, c.event, c.at, ds, orderId);
    }
  }

  lemma {:induction false} OrdersStayDecided(hash: EventId.Hash, source: Source, ds: set<Decision>, acts: seq<Action>)
    requires EventId.Digests(hash) && Decisions(acts) <= ds && OnlyFromLog(acts, source.orderId)
    ensures Decided(Run(hash, source, acts).store, ds, source.orderId)
  {
    if acts != [] {
      var init, a := acts[..|acts| - 1], acts[|acts| - 1];
      var w := Run(hash, source, init);
      assert a in acts && Decisions(init) <= Decisions(acts);
      OrdersStayDecided(hash, source, ds, init);
      match a
      case Consume(offset, at, commits) =>
        if offset < |w.log| {
          PublishedEventsShareOneId(hash, source, init);
          assert FromSource(hash, source, Decisions(init), w.log[offset].event);
          CommandStaysDecided(w, OrdersFacts.Deliver(w.log[offset].event, at, commits), ds, source.orderId);
        }
      case OtherCommand(command) => CommandStaysDecided(w, command, ds, source.orderId);
      case _ =>
    }
  }

  /** End to end: an order is confirmed only if the authorizer authorized its payment in some call,
      and the confirmation names that payment; an order is cancelled for its payment only if the
      authorizer declined it, and for that reason. */
  lemma OrdersEndAsDecided(hash: EventId.Hash, source: Source, acts: seq<Action>)
    requires EventId.Digests(hash) && OnlyFromLog(acts, source.orderId)
    ensures var s := Run(hash, source, acts).store;
      && (source.orderId in s.orders && s.orders[source.orderId].status == Confirmed ==>
            exists f :: f in s.outbox && f.orderId == source.orderId && f.kind.OrderConfirmed?)
      && (forall f :: f in s.outbox && f.orderId == source.orderId && f.kind.OrderConfirmed? ==>
            exists d :: d in Decisions(acts) && d.authorized && d.paymentId == f.kind.paymentId)
      && (forall f :: f in s.outbox && f.orderId == source.orderId
                      && f.kind.OrderCancelled? && f.kind.who == ByPayment ==>
            exists d :: d in Decisions(acts) && !d.authorized && d.reason == f.kind.reason)
  {
    var s, ds := Run(hash, source, acts).store, Decisions(acts);
    OrdersStayDecided(hash, source, ds, acts);
    forall f | f in s.outbox && f.orderId == source.orderId ensures Repeats(f, ds) {
    }
  }
}
