/** Retention of `processed_kafka_events`
    (app/order-service/src/modules/retention/technical-retention.service.ts) against
    the deduplication that table exists for. */
module Retention {
  import opened OrderLifecycle
  import opened OrdersRepository
  import opened OrdersTheorems

  /** A transaction, or one `deleteProcessedKafkaEventsBefore` batch. Which eligible
      rows a batch gets depends on its limit and on rows other replicas have locked. */
  datatype Act = Txn(cmd: Command) | Cleanup(at: Time, batch: set<Id>)

  /** `window` is the retention period; the cutoff is `at - window`. */
  function Forget(s: Store, at: Time, batch: set<Id>, window: Time): Store {
    s.(processed := map id | id in s.processed && !(id in batch && s.processed[id] < at - window) :: s.processed[id])
  }

  function ExecR(acts: seq<Act>, window: Time): Store
    decreases |acts|
  {
    if acts == [] then EmptyStore
    else
      var s := ExecR(acts[..|acts| - 1], window);
      match acts[|acts| - 1]
      case Txn(c) => Do(s, c).0
      case Cleanup(at, batch) => Forget(s, at, batch, window)
  }

  /** What the transactions answered, in order. */
  function OutcomesR(acts: seq<Act>, window: Time): seq<Outcome>
    decreases |acts|
  {
    if acts == [] then []
    else
      var before := acts[..|acts| - 1];
      match acts[|acts| - 1]
      case Txn(c) => OutcomesR(before, window) + [Do(ExecR(before, window), c).1]
      case Cleanup(_, _) => OutcomesR(before, window)
  }

  function Transactions(acts: seq<Act>): seq<Command>
    decreases |acts|
  {
    if acts == [] then []
    else
      var before := acts[..|acts| - 1];
      match acts[|acts| - 1]
      case Txn(c) => Transactions(before) + [c]
      case Cleanup(_, _) => Transactions(before)
  }

  function Plain(cmds: seq<Command>): seq<Act> {
    seq(|cmds|, i requires 0 <= i < |cmds| => Txn(cmds[i]))
  }

  predicate Timed(a: Act) {
    a.Cleanup? || !a.cmd.CancelOrder?
  }

  function TimeOf(a: Act): Time
    requires Timed(a)
  {
    if a.Cleanup? then a.at else a.cmd.at
  }

  /** The database clock never runs backwards. */
  ghost predicate Ordered(acts: seq<Act>) {
    forall i, j :: 0 <= i < j < |acts| && Timed(acts[i]) && Timed(acts[j]) ==> TimeOf(acts[i]) <= TimeOf(acts[j])
  }

  ghost predicate BatchesWithin(acts: seq<Act>, limit: nat) {
    forall a :: a in acts && a.Cleanup? ==> |a.batch| <= limit
  }

  ghost predicate Delivery(c: Command, id: Id) {
    c.Deliver? && c.commits && c.event.eventId == id
  }

  /** `cmds[i]` is the first committed delivery of `id`. */
  ghost predicate FirstDelivery(cmds: seq<Command>, i: int, id: Id) {
    0 <= i < |cmds| && Delivery(cmds[i], id) && id !in Delivered(cmds[..i])
  }

  /** Every redelivery of an id comes within `window` of its first delivery. */
  ghost predicate WithinWindow(cmds: seq<Command>, window: Time) {
    forall i, j, id :: 0 <= i < j < |cmds| && FirstDelivery(cmds, i, id) && Delivery(cmds[j], id)
      ==> cmds[j].at <= cmds[i].at + window
  }

  /** The store with cleanups is the store without them, short of some processed ids. */
  ghost predicate Forgetful(s: Store, s0: Store) {
    && s.orders == s0.orders && s.keys == s0.keys && s.outbox == s0.outbox && s.next == s0.next
    && (forall id :: id in s.processed ==> id in s0.processed && s.processed[id] == s0.processed[id])
  }

  /** A processed id that is gone was older than the window when some cleanup ran. */
  ghost predicate GoneBecauseOld(acts: seq<Act>, s: Store, s0: Store, window: Time) {
    forall id :: id in s0.processed && id !in s.processed ==> OldAtCleanup(acts, s0.processed[id], window)
  }

  ghost predicate OldAtCleanup(acts: seq<Act>, t: Time, window: Time) {
    exists i :: 0 <= i < |acts| && acts[i].Cleanup? && t < acts[i].at - window
  }

  /** The processing time on record is that of the first delivery. */
  lemma {:induction false} ProcessedAtFirst(cmds: seq<Command>, id: Id)
    ensures id in Exec(cmds).processed ==>
              exists i :: FirstDelivery(cmds, i, id) && Exec(cmds).processed[id] == cmds[i].at
  {
    if cmds != [] {
      var n := |cmds| - 1;
      var before, last := cmds[..n], cmds[n];
      ProcessedAtFirst(before, id);
      ProcessedIsDelivered(before);
      ProcessedIsDelivered(cmds);
      if last.Deliver? && last.commits {
        FinalNeverThrows(Exec(before), last);
      }
      if id in Exec(before).processed {
        var i :| FirstDelivery(before, i, id) && Exec(before).processed[id] == before[i].at;
        assert cmds[..i] == before[..i];
        assert FirstDelivery(cmds, i, id);
      } else if id in Exec(cmds).processed {
        assert FirstDelivery(cmds, n, id);
      }
    }
  }

  /** A transaction whose event, if any, is remembered or unseen in both stores acts alike on both. */
  lemma DoAlike(s: Store, s0: Store, c: Command)
    requires Forgetful(s, s0)
    requires c.Deliver? && c.commits && c.event.eventId in s0.processed ==> c.event.eventId in s.processed
    ensures Do(s, c).1 == Do(s0, c).1
    ensures Forgetful(Do(s, c).0, Do(s0, c).0)
    ensures forall id :: id in Do(s0, c).0.processed && id !in Do(s, c).0.processed
              ==> id in s0.processed && id !in s.processed && Do(s0, c).0.processed[id] == s0.processed[id]
  {
    if c.Deliver? && c.commits {
      DeliveryAlike(s, s0, c.event, c.at);
    }
  }

  lemma DeliveryAlike(s: Store, s0: Store, e: LifecycleEvent, now: Time)
    requires Forgetful(s, s0) && (e.eventId in s0.processed ==> e.eventId in s.processed)
    ensures ProcessLifecycle(s, e, now).1 == ProcessLifecycle(s0, e, now).1
    ensures Forgetful(ProcessLifecycle(s, e, now).0, ProcessLifecycle(s0, e, now).0)
    ensures var t, t0 := ProcessLifecycle(s, e, now).0.processed, ProcessLifecycle(s0, e, now).0.processed;
      forall id :: id in t0 && id !in t
        ==> id in s0.processed && id !in s.processed && t0[id] == s0.processed[id]
  {
    FinalNeverThrows(s, Deliver(e, now, true));
    FinalNeverThrows(s0, Deliver(e, now, true));
  }

  lemma StillOld(acts: seq<Act>, a: Act, t: Time, window: Time)
    requires OldAtCleanup(acts, t, window)
    ensures OldAtCleanup(acts + [a], t, window)
  {
    var i :| 0 <= i < |acts| && acts[i].Cleanup? && t < acts[i].at - window;
    assert (acts + [a])[i] == acts[i];
  }

  lemma WindowOfPrefix(cmds: seq<Command>, c: Command, window: Time)
    requires WithinWindow(cmds + [c], window)
    ensures WithinWindow(cmds, window)
  {
    var all := cmds + [c];
    forall i, j, id | 0 <= i < j < |cmds| && FirstDelivery(cmds, i, id) && Delivery(cmds[j], id)
      ensures cmds[j].at <= cmds[i].at + window
    {
      assert all[..i] == cmds[..i];
      assert FirstDelivery(all, i, id);
      assert Delivery(all[j], id);
    }
  }

  /** A redelivery in time finds its id: cleanups before it cannot have removed it. */
  lemma TimelyRedeliveryIsRemembered(acts: seq<Act>, c: Command, window: Time)
    requires Ordered(acts + [Txn(c)]) && WithinWindow(Transactions(acts) + [c], window)
    requires GoneBecauseOld(acts, ExecR(acts, window), Exec(Transactions(acts)), window)
    requires c.Deliver? && c.commits && c.event.eventId in Exec(Transactions(acts)).processed
    ensures c.event.eventId in ExecR(acts, window).processed
  {
    var cmds, id := Transactions(acts), c.event.eventId;
    var all := cmds + [c];
    ProcessedAtFirst(cmds, id);
    var i :| FirstDelivery(cmds, i, id) && Exec(cmds).processed[id] == cmds[i].at;
    assert all[..i] == cmds[..i];
    assert FirstDelivery(all, i, id) && Delivery(all[|cmds|], id);
    assert c.at <= cmds[i].at + window;
    if id !in ExecR(acts, window).processed {
      var k :| 0 <= k < |acts| && acts[k].Cleanup? && cmds[i].at < acts[k].at - window;
      var acts' := acts + [Txn(c)];
      assert acts'[k] == acts[k] && acts'[|acts|] == Txn(c);
      assert Timed(acts'[k]) && Timed(acts'[|acts|]);
    }
  }

  lemma OrderedPrefix(acts: seq<Act>, n: nat)
    requires Ordered(acts) && n <= |acts|
    ensures Ordered(acts[..n])
  {
  }

  /** If redeliveries come within the retention window, cleanups go unnoticed:
      same answers, same orders, same keys, same outbox. */
  lemma {:induction false} TimelyCleanupIsInvisible(acts: seq<Act>, window: Time)
    requires Ordered(acts) && WithinWindow(Transactions(acts), window)
    ensures OutcomesR(acts, window) == OutcomesR(Plain(Transactions(acts)), window)
    ensures Forgetful(ExecR(acts, window), Exec(Transactions(acts)))
    ensures GoneBecauseOld(acts, ExecR(acts, window), Exec(Transactions(acts)), window)
  {
    PlainRuns(Transactions(acts), window);
    if acts != [] {
      var n := |acts| - 1;
      var before, last := acts[..n], acts[n];
      assert acts == before + [last];
      var s, s0 := ExecR(before, window), Exec(Transactions(before));
      OrderedPrefix(acts, n);
      if last.Txn? {
        WindowOfPrefix(Transactions(before), last.cmd, window);
        TimelyCleanupIsInvisible(before, window);
        PlainRuns(Transactions(before), window);
        if last.cmd.Deliver? && last.cmd.commits && last.cmd.event.eventId in s0.processed {
          TimelyRedeliveryIsRemembered(before, last.cmd, window);
        }
        DoAlike(s, s0, last.cmd);
        ExecStep(Transactions(before), last.cmd);
        PlainOutcomes(Transactions(before), last.cmd, window);
      } else {
        TimelyCleanupIsInvisible(before, window);
      }
      var s', s0' := ExecR(acts, window), Exec(Transactions(acts));
      forall id | id in s0'.processed && id !in s'.processed
        ensures OldAtCleanup(acts, s0'.processed[id], window)
      {
        if id in s0.processed && id !in s.processed {
          StillOld(before, last, s0.processed[id], window);
        } else {
          assert acts[n] == last;
        }
      }
    }
  }

  lemma {:induction false} PlainRuns(cmds: seq<Command>, window: Time)
    ensures ExecR(Plain(cmds), window) == Exec(cmds)
    ensures Transactions(Plain(cmds)) == cmds
  {
    if cmds != [] {
      var n := |cmds| - 1;
      PlainRuns(cmds[..n], window);
      assert Plain(cmds)[..n] == Plain(cmds[..n]);
      assert cmds == cmds[..n] + [cmds[n]];
    }
  }

  lemma PlainOutcomes(cmds: seq<Command>, c: Command, window: Time)
    ensures OutcomesR(Plain(cmds + [c]), window) == OutcomesR(Plain(cmds), window) + [Do(Exec(cmds), c).1]
  {
    assert Plain(cmds + [c])[..|cmds|] == Plain(cmds);
    PlainRuns(cmds, window);
  }

  /** The schedule that cleans up one id right before transaction `j`. */
  ghost function CleanBefore(cmds: seq<Command>, j: nat, id: Id): seq<Act>
    requires j < |cmds| && Delivery(cmds[j], id)
  {
    Plain(cmds[..j]) + [Cleanup(cmds[j].at, {id})] + Plain(cmds[j..])
  }

  lemma {:induction false} TransactionsOfConcat(a: seq<Act>, b: seq<Act>)
    ensures Transactions(a + b) == Transactions(a) + Transactions(b)
  {
    if b == [] {
      assert a + b == a;
    } else {
      var n := |b| - 1;
      TransactionsOfConcat(a, b[..n]);
      assert (a + b)[..|a| + n] == a + b[..n];
    }
  }

  lemma {:induction false} OneAnswerEach(acts: seq<Act>, window: Time)
    ensures |OutcomesR(acts, window)| == |Transactions(acts)|
  {
    if acts != [] {
      OneAnswerEach(acts[..|acts| - 1], window);
    }
  }

  lemma {:induction false} AnswersStay(acts: seq<Act>, k: nat, window: Time)
    requires k <= |acts|
    ensures OutcomesR(acts[..k], window) <= OutcomesR(acts, window)
  {
    if k < |acts| {
      var n := |acts| - 1;
      AnswersStay(acts[..n], k, window);
      assert acts[..n][..k] == acts[..k];
    } else {
      assert acts[..k] == acts;
    }
  }

  /** The answer of the transaction at position `k` of a schedule. */
  lemma AnswerAt(acts: seq<Act>, k: nat, window: Time)
    requires k < |acts| && acts[k].Txn?
    ensures var p := |Transactions(acts[..k])|;
      p < |OutcomesR(acts, window)| && OutcomesR(acts, window)[p] == Do(ExecR(acts[..k], window), acts[k].cmd).1
  {
    AnswersStay(acts, k + 1, window);
    OneAnswerEach(acts[..k], window);
    assert acts[..k + 1][..k] == acts[..k];
  }

  lemma CleanBeforeIsSchedule(cmds: seq<Command>, j: nat, id: Id, window: Time)
    requires j < |cmds| && Delivery(cmds[j], id)
    ensures Transactions(CleanBefore(cmds, j, id)) == cmds
  {
    var before, rest := cmds[..j], cmds[j..];
    var cleanup := Cleanup(cmds[j].at, {id});
    PlainRuns(before, window);
    PlainRuns(rest, window);
    assert cmds == before + rest;
    assert (Plain(before) + [cleanup])[..j] == Plain(before);
    assert Transactions(Plain(before) + [cleanup]) == before;
    TransactionsOfConcat(Plain(before) + [cleanup], Plain(rest));
  }

  lemma IdRemembered(cmds: seq<Command>, i: int, j: nat, id: Id)
    requires i < j <= |cmds| && FirstDelivery(cmds, i, id)
    ensures id in Exec(cmds[..j]).processed && Exec(cmds[..j]).processed[id] == cmds[i].at
  {
    var before := cmds[..j];
    assert before[i] in before && Delivery(before[i], id);
    ProcessedIsDelivered(before);
    ProcessedAtFirst(before, id);
    var k :| FirstDelivery(before, k, id) && Exec(before).processed[id] == before[k].at;
    assert before[..k] == cmds[..k];
    OnlyOneFirst(cmds, i, k, id);
  }

  lemma OnlyOneFirst(cmds: seq<Command>, i: int, k: int, id: Id)
    requires FirstDelivery(cmds, i, id) && FirstDelivery(cmds, k, id)
    ensures i == k
  {
  }

  /** A redelivery after the window is answered DUPLICATE_EVENT without cleanups,
      and taken for a new event when a cleanup of its row comes just before it. */
  lemma LateRedeliveryIsTakenForNew(cmds: seq<Command>, i: int, j: nat, id: Id, window: Time)
    requires i < j < |cmds| && FirstDelivery(cmds, i, id) && Delivery(cmds[j], id)
    requires cmds[j].at > cmds[i].at + window
    ensures OutcomesR(CleanBefore(cmds, j, id), window) != OutcomesR(Plain(cmds), window)
  {
    var acts, before := CleanBefore(cmds, j, id), cmds[..j];
    var cleanup := Cleanup(cmds[j].at, {id});
    IdRemembered(cmds, i, j, id);
    PlainRuns(before, window);
    assert Plain(cmds)[..j] == Plain(before);
    AnswerAt(Plain(cmds), j, window);
    assert acts[..j + 1] == Plain(before) + [cleanup];
    assert acts[..j + 1][..j] == Plain(before);
    assert acts[j + 1] == Txn(cmds[j]);
    AnswerAt(acts, j + 1, window);
    assert id !in ExecR(acts[..j + 1], window).processed;
    FinalNeverThrows(ExecR(acts[..j + 1], window), cmds[j]);
  }

  lemma CleanBeforeIsOrdered(cmds: seq<Command>, j: nat, id: Id)
    requires j < |cmds| && Delivery(cmds[j], id) && Ordered(Plain(cmds))
    ensures Ordered(CleanBefore(cmds, j, id)) && BatchesWithin(CleanBefore(cmds, j, id), 1)
  {
    var acts, plain := CleanBefore(cmds, j, id), Plain(cmds);
    forall p, q | 0 <= p < q < |acts| && Timed(acts[p]) && Timed(acts[q])
      ensures TimeOf(acts[p]) <= TimeOf(acts[q])
    {
      var p' := if p <= j then p else p - 1;
      var q' := if q <= j then q else q - 1;
      assert Timed(plain[p']) && Timed(plain[q']);
      assert TimeOf(acts[p]) == TimeOf(plain[p']) && TimeOf(acts[q]) == TimeOf(plain[q']);
    }
  }

  /** The schedules cleanups can follow around `cmds`. */
  ghost predicate Schedule(acts: seq<Act>, cmds: seq<Command>, batchSize: nat) {
    Transactions(acts) == cmds && Ordered(acts) && BatchesWithin(acts, batchSize)
  }

  ghost predicate Unnoticed(acts: seq<Act>, window: Time) {
    OutcomesR(acts, window) == OutcomesR(Plain(Transactions(acts)), window)
  }

  /** Cleanup goes unnoticed on every schedule exactly when no redelivery comes
      later than the window after the first delivery of its id. */
  lemma CleanupUnnoticedExactlyWhen(cmds: seq<Command>, window: Time, batchSize: nat)
    requires Ordered(Plain(cmds)) && batchSize >= 1
    ensures WithinWindow(cmds, window) <==> forall acts :: Schedule(acts, cmds, batchSize) ==> Unnoticed(acts, window)
  {
    if WithinWindow(cmds, window) {
      forall acts | Schedule(acts, cmds, batchSize)
        ensures Unnoticed(acts, window)
      {
        TimelyCleanupIsInvisible(acts, window);
      }
    } else {
      var i, j, id :| 0 <= i < j < |cmds| && FirstDelivery(cmds, i, id) && Delivery(cmds[j], id)
                      && cmds[j].at > cmds[i].at + window;
      LateRedeliveryIsTakenForNew(cmds, i, j, id, window);
      CleanBeforeIsSchedule(cmds, j, id, window);
      CleanBeforeIsOrdered(cmds, j, id);
      assert Schedule(CleanBefore(cmds, j, id), cmds, batchSize);
      assert !Unnoticed(CleanBefore(cmds, j, id), window);
    }
  }
}
