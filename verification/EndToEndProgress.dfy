/** The composed system comes to an end: an approved order whose payment result is still due is
    settled, as the authorizer decides, by one undisturbed delivery on either side. */
module EndToEndProgress {
  import opened Common
  import opened OrderLifecycle
  import InboxStore
  import Inbox = InboxProtocol
  import Alone = InboxAlone
  import Progress = InboxProgress
  import EventId
  import Orders = OrdersRepository
  import OrdersFacts = OrdersTheorems
  import Answers = OrdersAnswers
  import opened EndToEnd

  lemma RunStep(hash: EventId.Hash, source: Source, acts: seq<Action>, a: Action)
    requires EventId.Digests(hash)
    ensures Run(hash, source, acts + [a]) == Step(hash, source, Run(hash, source, acts), a)
  {
    assert (acts + [a])[..|acts|] == acts;
  }

  /** A delivery up to the effect: claim, authorization, save and the start of the effect. */
  function ToEffect(token: InboxStore.Token, lease: InboxStore.Time, d: Decision): seq<Action> {
    [Payment(Inbox.Insert(token, lease, NoFault)), Payment(Inbox.On(token, Inbox.Update(NoFault))),
     Payment(Inbox.On(token, Inbox.Select(NoFault))), Authorize(token, Some(d)),
     Payment(Inbox.On(token, Inbox.Save(NoFault))), Payment(Inbox.On(token, Inbox.StartEffect))]
  }

  /** The broker takes the event, the delivery ends, and order-service reads the log there. */
  function FromEffect(token: InboxStore.Token, epoch: nat, index: nat, offset: nat, at: Orders.Time): seq<Action> {
    [Append(epoch, index), Payment(Inbox.On(token, Inbox.EndEffect(true))),
     Payment(Inbox.On(token, Inbox.Complete(NoFault))), Consume(offset, at, true)]
  }

  /** The event that the delivery publishes: the stored one if an earlier delivery saved one. */
  function EventFor(hash: EventId.Hash, source: Source, row: Option<InboxStore.Row<LifecycleEvent>>, d: Decision)
    : LifecycleEvent
    requires EventId.Digests(hash)
  {
    if Progress.HasResult(row) then row.value.result.value else PreparePaymentEvent(hash, source, d)
  }

  /** The world when the effect has started. */
  ghost predicate InEffect(w: World, u: World, token: InboxStore.Token, event: LifecycleEvent) {
    && u == w.(inbox := u.inbox)
    && |u.inbox.hist| > 0 && |u.inbox.hist| == |w.inbox.hist| && u.inbox.now == w.inbox.now
    && token in u.inbox.calls && u.inbox.calls[token].epoch == |u.inbox.hist| - 1
    && u.inbox.calls[token].pc == Inbox.InEffect(Some(event))
    && u.inbox.row.Some? && u.inbox.row.value.lockToken == Some(token)
    && u.inbox.row.value.status == InboxStore.Prepared
    && var effects := u.inbox.hist[|u.inbox.hist| - 1].effects;
       effects != [] && effects[|effects| - 1] == Inbox.Effect(token, Some(event))
  }

  /** The inbox after claim and prepare. */
  lemma InboxReady(hash: EventId.Hash, source: Source, s: Inbox.State<LifecycleEvent>, token: InboxStore.Token,
                   lease: InboxStore.Time, d: Decision) returns (u: Inbox.State<LifecycleEvent>)
    requires EventId.Digests(hash) && Inbox.Inv(s) && token !in s.calls && Progress.Waits(s.row, s.now)
    ensures var claimed := Inbox.Step(Inbox.Step(Inbox.Step(s, Inbox.Insert(token, lease, NoFault)),
                                                 Inbox.On(token, Inbox.Update(NoFault))),
                                      Inbox.On(token, Inbox.Select(NoFault)));
      var prepared := Inbox.Prepare(Some(Some(PreparePaymentEvent(hash, source, d))));
      u == Inbox.Step(Inbox.Step(claimed, Inbox.On(token, prepared)), Inbox.On(token, Inbox.Save(NoFault)))
    ensures u.row.Some? && u.row.value.lockToken == Some(token) && u.row.value.status == InboxStore.Prepared
    ensures Alone.Stands(u, token, u.row.value, Inbox.Ready(Some(EventFor(hash, source, s.row, d))), s.now)
    ensures |u.hist| == |s.hist|
  {
    var claimed := Alone.ClaimAlone(s, token, lease);
    var row := InboxStore.RowAfterClaim(s.row, token, lease, s.now);
    u := Alone.PrepareAlone(claimed, token, row, s.now, Some(Some(PreparePaymentEvent(hash, source, d))));
  }

  lemma EffectStarts(s: Inbox.State<LifecycleEvent>, token: InboxStore.Token, event: LifecycleEvent,
                     now: InboxStore.Time)
    returns (u: Inbox.State<LifecycleEvent>)
    requires s.row.Some? && Alone.Stands(s, token, s.row.value, Inbox.Ready(Some(event)), now)
    ensures u == Inbox.Step(s, Inbox.On(token, Inbox.StartEffect))
    ensures u.row == s.row && u.now == s.now && |u.hist| == |s.hist| && token in u.calls
    ensures u.calls[token].epoch == |u.hist| - 1 && u.calls[token].pc == Inbox.InEffect(Some(event))
    ensures var effects := u.hist[|u.hist| - 1].effects;
      effects != [] && effects[|effects| - 1] == Inbox.Effect(token, Some(event))
  {
    u := Inbox.Step(s, Inbox.On(token, Inbox.StartEffect));
  }

  /** One await of the inbox in the composed system. */
  lemma PaymentRuns(hash: EventId.Hash, source: Source, acts: seq<Action>, step: Inbox.Action<LifecycleEvent>)
    requires EventId.Digests(hash) && Enabled(Run(hash, source, acts), step)
    ensures var w := Run(hash, source, acts);
      Run(hash, source, acts + [Payment(step)]) == w.(inbox := Inbox.Step(w.inbox, step))
  {
    RunStep(hash, source, acts, Payment(step));
  }

  lemma ClaimRuns(hash: EventId.Hash, source: Source, acts: seq<Action>, token: InboxStore.Token,
                  lease: InboxStore.Time, d: Decision)
    requires EventId.Digests(hash)
    ensures var w := Run(hash, source, acts);
      var inserted := Inbox.Step(w.inbox, Inbox.Insert(token, lease, NoFault));
      var updated := Inbox.Step(inserted, Inbox.On(token, Inbox.Update(NoFault)));
      Run(hash, source, acts + ToEffect(token, lease, d)[..3])
      == w.(inbox := Inbox.Step(updated, Inbox.On(token, Inbox.Select(NoFault))))
  {
    var steps := ToEffect(token, lease, d);
    PaymentRuns(hash, source, acts, steps[0].step);
    var a1 := acts + [steps[0]];
    PaymentRuns(hash, source, a1, steps[1].step);
    var a2 := a1 + [steps[1]];
    PaymentRuns(hash, source, a2, steps[2].step);
    assert acts + steps[..3] == a2 + [steps[2]];
  }

  lemma PrepareRuns(hash: EventId.Hash, source: Source, acts: seq<Action>, token: InboxStore.Token,
                    lease: InboxStore.Time, d: Decision)
    requires EventId.Digests(hash)
    ensures var w := Run(hash, source, acts);
      var prepare := Inbox.Prepare(Some(Some(PreparePaymentEvent(hash, source, d))));
      var saved := Inbox.Step(Inbox.Step(w.inbox, Inbox.On(token, prepare)), Inbox.On(token, Inbox.Save(NoFault)));
      Run(hash, source, acts + ToEffect(token, lease, d)[3..])
      == w.(inbox := Inbox.Step(saved, Inbox.On(token, Inbox.StartEffect)))
  {
    var steps := ToEffect(token, lease, d);
    RunStep(hash, source, acts, steps[3]);
    var a1 := acts + [steps[3]];
    PaymentRuns(hash, source, a1, steps[4].step);
    var a2 := a1 + [steps[4]];
    PaymentRuns(hash, source, a2, steps[5].step);
    assert acts + steps[3..] == a2 + [steps[5]];
  }

  lemma EffectIsReached(hash: EventId.Hash, source: Source, acts: seq<Action>, token: InboxStore.Token,
                        lease: InboxStore.Time, d: Decision)
    requires EventId.Digests(hash)
    requires var s := Run(hash, source, acts).inbox;
      Inbox.Inv(s) && token !in s.calls && Progress.Waits(s.row, s.now)
    ensures var w := Run(hash, source, acts);
      InEffect(w, Run(hash, source, acts + ToEffect(token, lease, d)), token, EventFor(hash, source, w.inbox.row, d))
  {
    var w, steps := Run(hash, source, acts), ToEffect(token, lease, d);
    var u := EffectOf(hash, source, w, token, lease, d);
    ClaimRuns(hash, source, acts, token, lease, d);
    PrepareRuns(hash, source, acts + steps[..3], token, lease, d);
    assert acts + steps == acts + steps[..3] + steps[3..];
  }

  lemma EffectOf(hash: EventId.Hash, source: Source, w: World, token: InboxStore.Token, lease: InboxStore.Time,
                 d: Decision) returns (u: World)
    requires EventId.Digests(hash)
    requires Inbox.Inv(w.inbox) && token !in w.inbox.calls && Progress.Waits(w.inbox.row, w.inbox.now)
    ensures var inserted := Inbox.Step(w.inbox, Inbox.Insert(token, lease, NoFault));
      var claimed := Inbox.Step(Inbox.Step(inserted, Inbox.On(token, Inbox.Update(NoFault))),
                                Inbox.On(token, Inbox.Select(NoFault)));
      var prepare := Inbox.Prepare(Some(Some(PreparePaymentEvent(hash, source, d))));
      var saved := Inbox.Step(Inbox.Step(claimed, Inbox.On(token, prepare)), Inbox.On(token, Inbox.Save(NoFault)));
      u == w.(inbox := Inbox.Step(saved, Inbox.On(token, Inbox.StartEffect)))
    ensures InEffect(w, u, token, EventFor(hash, source, w.inbox.row, d))
  {
    var ready := InboxReady(hash, source, w.inbox, token, lease, d);
    var started := EffectStarts(ready, token, EventFor(hash, source, w.inbox.row, d), w.inbox.now);
    u := w.(inbox := started);
  }

  /** The broker has the event, and the inbox row is COMPLETED. */
  ghost predicate Published(w: World, u: World, token: InboxStore.Token, event: LifecycleEvent) {
    && |w.inbox.hist| > 0 && u.log == w.log + [Record(|w.inbox.hist| - 1, token, event)]
    && u.store == w.store && u.answers == w.answers && u.dropped == w.dropped
    && u.inbox.row.Some? && u.inbox.row.value.status == InboxStore.Completed
  }

  lemma InboxEnds(s: Inbox.State<LifecycleEvent>, token: InboxStore.Token, event: LifecycleEvent)
    returns (u: Inbox.State<LifecycleEvent>)
    requires |s.hist| > 0 && token in s.calls && s.calls[token].epoch == |s.hist| - 1
    requires s.calls[token].pc == Inbox.InEffect(Some(event))
    requires s.row.Some? && s.row.value.lockToken == Some(token) && s.row.value.status == InboxStore.Prepared
    ensures var ended := Inbox.Step(s, Inbox.On(token, Inbox.EndEffect(true)));
      u == Inbox.Step(ended, Inbox.On(token, Inbox.Complete(NoFault)))
    ensures u.row.Some? && u.row.value.status == InboxStore.Completed
  {
    var ended := Inbox.Step(s, Inbox.On(token, Inbox.EndEffect(true)));
    assert ended.calls[token].pc == Inbox.Effected(Some(event)) && ended.row == s.row;
    u := Inbox.Step(ended, Inbox.On(token, Inbox.Complete(NoFault)));
  }

  /** The broker takes the event of the effect that has just started. */
  lemma EventIsAppended(hash: EventId.Hash, source: Source, acts: seq<Action>, w: World, token: InboxStore.Token,
                        event: LifecycleEvent, e: nat, n: nat)
    requires EventId.Digests(hash) && InEffect(w, Run(hash, source, acts), token, event)
    requires var u := Run(hash, source, acts).inbox; e == |u.hist| - 1 && n == |u.hist[e].effects| - 1
    ensures var u := Run(hash, source, acts);
      Run(hash, source, acts + [Append(e, n)]) == u.(log := u.log + [Record(e, token, event)])
  {
    RunStep(hash, source, acts, Append(e, n));
  }

  lemma SentNow(w: World, token: InboxStore.Token, r: Record)
    requires token in w.inbox.calls && r.token == token && r.epoch == w.inbox.calls[token].epoch
    ensures Sent(w.(log := w.log + [r]), token)
  {
    assert (w.log + [r])[|w.log|] == r;
  }

  lemma DeliveryEnds(hash: EventId.Hash, source: Source, acts: seq<Action>, token: InboxStore.Token,
                     event: LifecycleEvent)
    requires EventId.Digests(hash) && Sent(Run(hash, source, acts), token)
    requires var s := Run(hash, source, acts).inbox;
      && |s.hist| > 0 && token in s.calls && s.calls[token].epoch == |s.hist| - 1
      && s.calls[token].pc == Inbox.InEffect(Some(event))
      && s.row.Some? && s.row.value.lockToken == Some(token) && s.row.value.status == InboxStore.Prepared
    ensures var w := Run(hash, source, acts);
      var u := Run(hash, source, acts + [Payment(Inbox.On(token, Inbox.EndEffect(true)))]
                               + [Payment(Inbox.On(token, Inbox.Complete(NoFault)))]);
      && u == w.(inbox := u.inbox)
      && u.inbox.row.Some? && u.inbox.row.value.status == InboxStore.Completed
  {
    var s := Run(hash, source, acts).inbox;
    var done := InboxEnds(s, token, event);
    var end := Inbox.On(token, Inbox.EndEffect(true));
    PaymentRuns(hash, source, acts, end);
    PaymentRuns(hash, source, acts + [Payment(end)], Inbox.On(token, Inbox.Complete(NoFault)));
  }

  lemma EventIsPublished(hash: EventId.Hash, source: Source, acts: seq<Action>, w: World, token: InboxStore.Token,
                         event: LifecycleEvent, e: nat, n: nat, offset: nat, at: Orders.Time)
    requires EventId.Digests(hash) && InEffect(w, Run(hash, source, acts), token, event)
    requires var u := Run(hash, source, acts).inbox; e == |u.hist| - 1 && n == |u.hist[e].effects| - 1
    ensures Published(w, Run(hash, source, acts + FromEffect(token, e, n, offset, at)[..3]), token, event)
  {
    var u, steps := Run(hash, source, acts), FromEffect(token, e, n, offset, at);
    EventIsAppended(hash, source, acts, w, token, event, e, n);
    SentNow(u, token, Record(e, token, event));
    DeliveryEnds(hash, source, acts + [steps[0]], token, event);
    assert acts + steps[..3] == acts + [steps[0]] + [steps[1]] + [steps[2]];
  }

  /** What order-service makes of the event. */
  lemma EventSettlesTheOrder(s: Orders.Store, e: LifecycleEvent, at: Orders.Time)
    requires OrdersFacts.IdsOk(s) && e.eventId !in s.processed && IsPaymentFor(e, e.orderId)
    requires e.orderId in s.orders && s.orders[e.orderId].status == RiskApproved
    ensures var s' := Orders.ProcessLifecycle(s, e, at).0;
      && e.orderId in s'.orders
      && s'.orders[e.orderId].status == if e.eventType == PaymentAuthorizedEvent then Confirmed else Cancelled
  {
    Answers.DeliveredOnce(s, e, at);
    var to := if e.eventType == PaymentAuthorizedEvent then Confirmed else Cancelled;
    assert Answers.Moves(RiskApproved, e.eventType, to);
  }

  /** The delivery of the source event at payment-service and of its payment event at order-service. */
  function Deliveries(w: World, u: World, token: InboxStore.Token, lease: InboxStore.Time, d: Decision, at: Orders.Time)
    : seq<Action>
    requires |u.inbox.hist| > 0 && u.inbox.hist[|u.inbox.hist| - 1].effects != []
  {
    var e := |u.inbox.hist| - 1;
    ToEffect(token, lease, d) + FromEffect(token, e, |u.inbox.hist[e].effects| - 1, |w.log|, at)
  }

  /** Whatever crashed or was lost before: while the order is approved and order-service has not seen
      the payment event, a delivery of the source event that comes alone after the last lease
      publishes it, and its delivery confirms or cancels the order, as the authorizer decides now or
      did when the stored result was made. */
  lemma ApprovedOrderIsSettled(hash: EventId.Hash, source: Source, acts: seq<Action>, token: InboxStore.Token,
                               lease: InboxStore.Time, d: Decision, at: Orders.Time)
    requires EventId.Digests(hash)
    requires var w := Run(hash, source, acts);
      && token !in w.inbox.calls && Progress.Waits(w.inbox.row, w.inbox.now)
      && source.orderId in w.store.orders && w.store.orders[source.orderId].status == RiskApproved
      && External(EventId.EventIdOf(hash, NAMESPACE, source.eventId)) !in w.store.processed
    ensures var w, u := Run(hash, source, acts), Run(hash, source, acts + ToEffect(token, lease, d));
      && |u.inbox.hist| > 0 && u.inbox.hist[|u.inbox.hist| - 1].effects != []
      && var end := Run(hash, source, acts + Deliveries(w, u, token, lease, d, at));
      && end.inbox.row.Some? && end.inbox.row.value.status == InboxStore.Completed
      && source.orderId in end.store.orders
      && var status := end.store.orders[source.orderId].status;
      && status in {Confirmed, Cancelled}
      && (!Progress.HasResult(w.inbox.row) ==> (status == Confirmed <==> d.authorized))
      && (Progress.HasResult(w.inbox.row) ==>
            exists d' :: d' in Decisions(acts) && (status == Confirmed <==> d'.authorized))
  {
    var w, ds := Run(hash, source, acts), Decisions(acts);
    InboxRuns(hash, source, ds, acts);
    InboxKnown(hash, source, ds, w.inbox);
    PaymentsEnd(hash, source, acts, source.orderId);
    EventIsRight(hash, source, ds, w, d);
    EventSettlesTheOrder(w.store, EventFor(hash, source, w.inbox.row, d), at);
    EffectIsReached(hash, source, acts, token, lease, d);
    DeliveriesRun(hash, source, acts, token, lease, d, at);
  }

  lemma EventIsConsumed(hash: EventId.Hash, source: Source, acts: seq<Action>, w: World, token: InboxStore.Token,
                        event: LifecycleEvent, at: Orders.Time)
    requires EventId.Digests(hash) && Published(w, Run(hash, source, acts), token, event)
    ensures var u, end := Run(hash, source, acts), Run(hash, source, acts + [Consume(|w.log|, at, true)]);
      end.inbox == u.inbox && end.store == Orders.ProcessLifecycle(w.store, event, at).0
  {
    assert Run(hash, source, acts).log[|w.log|].event == event;
    RunStep(hash, source, acts, Consume(|w.log|, at, true));
  }

  lemma DeliveriesRun(hash: EventId.Hash, source: Source, acts: seq<Action>, token: InboxStore.Token,
                      lease: InboxStore.Time, d: Decision, at: Orders.Time)
    requires EventId.Digests(hash)
    requires var w := Run(hash, source, acts);
      InEffect(w, Run(hash, source, acts + ToEffect(token, lease, d)), token, EventFor(hash, source, w.inbox.row, d))
    ensures var w, u := Run(hash, source, acts), Run(hash, source, acts + ToEffect(token, lease, d));
      var end := Run(hash, source, acts + Deliveries(w, u, token, lease, d, at));
      && end.inbox.row.Some? && end.inbox.row.value.status == InboxStore.Completed
      && end.store == Orders.ProcessLifecycle(w.store, EventFor(hash, source, w.inbox.row, d), at).0
  {
    var w, a6 := Run(hash, source, acts), acts + ToEffect(token, lease, d);
    var u, event := Run(hash, source, a6), EventFor(hash, source, w.inbox.row, d);
    var e := |u.inbox.hist| - 1;
    var n := |u.inbox.hist[e].effects| - 1;
    var steps := FromEffect(token, e, n, |w.log|, at);
    EventIsPublished(hash, source, a6, w, token, event, e, n, |w.log|, at);
    EventIsConsumed(hash, source, a6 + steps[..3], w, token, event, at);
    assert acts + Deliveries(w, u, token, lease, d, at) == a6 + steps[..3] + [steps[3]];
  }

  /** The published event is the payment result of the source, as decided. */
  lemma EventIsRight(hash: EventId.Hash, source: Source, ds: set<Decision>, w: World, d: Decision)
    requires EventId.Digests(hash) && InboxRun(hash, source, ds, w.inbox)
    ensures var event := EventFor(hash, source, w.inbox.row, d);
      && event.eventId == External(EventId.EventIdOf(hash, NAMESPACE, source.eventId))
      && event.orderId == source.orderId && IsPaymentFor(event, source.orderId)
      && (!Progress.HasResult(w.inbox.row) ==> (event.eventType == PaymentAuthorizedEvent <==> d.authorized))
      && (Progress.HasResult(w.inbox.row) ==>
            exists d' :: d' in ds && (event.eventType == PaymentAuthorizedEvent <==> d'.authorized))
  {
    InboxKnown(hash, source, ds, w.inbox);
    if Progress.HasResult(w.inbox.row) {
      assert Prepared(hash, source, ds)(w.inbox.row.value.result);
      var d' :| d' in ds && Tells(w.inbox.row.value.result.value, d');
    }
  }
}
