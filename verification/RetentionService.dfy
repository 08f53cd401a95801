/** One pass of the retention job over its three tables
    (app/order-service/src/modules/retention/technical-retention.service.ts). */
module RetentionService {
  import opened Common
  import L = OrderLifecycle
  import Orders = OrdersRepository
  import Outbox = OutboxMachine
  import Inbox = InboxStore
  import InboxProtocol
  import Retention

  type Time = int

  /** `K` rows a statement may delete, with their age, and those other replicas have not locked. */
  datatype Candidates<K> = Candidates(ages: map<K, Time>, unlocked: set<K>)

  /** A batch of the oldest candidates: at most `limit`, and all of them if it is not full. */
  ghost predicate IsBatch<K>(c: Candidates<K>, batch: set<K>, limit: nat) {
    && batch <= c.ages.Keys * c.unlocked
    && |batch| <= limit
    && (forall k, j :: k in batch && j in c.ages.Keys * c.unlocked - batch ==> c.ages[k] <= c.ages[j])
    && (|batch| < limit ==> batch == c.ages.Keys * c.unlocked)
  }

  /** The candidates in the order of the statement; keys decide among rows of one age. */
  ghost predicate IsOrder<K>(c: Candidates<K>, order: seq<K>) {
    && NoDup(order)
    && (forall k :: k in order ==> k in c.ages && k in c.unlocked)
    && (forall k :: k in c.ages && k in c.unlocked ==> k in order)
    && (forall i, j :: 0 <= i < j < |order| ==> c.ages[order[i]] <= c.ages[order[j]])
  }

  function FirstOf<K>(order: seq<K>, limit: nat): seq<K> {
    if limit < |order| then order[..limit] else order
  }

  function Taken<K>(order: seq<K>, limit: nat): set<K> {
    var first := FirstOf(order, limit);
    set k | k in first
  }

  /** `order by age, key limit n for update skip locked` takes a batch of the oldest. */
  lemma LimitTakesTheOldest<K>(c: Candidates<K>, order: seq<K>, limit: nat)
    requires IsOrder(c, order)
    ensures IsBatch(c, Taken(order, limit), limit)
  {
    var first := FirstOf(order, limit);
    var batch := Taken(order, limit);
    assert batch == Elements(first);
    ElementsBound(first);
    forall k, j | k in batch && j in c.ages.Keys * c.unlocked - batch ensures c.ages[k] <= c.ages[j] {
      var x := IndexIn(first, k);
      assert j in order;
      var y := IndexIn(order, j);
      assert forall z :: 0 <= z < |first| ==> first[z] == order[z] && first[z] in first;
      assert order[x] == k;
    }
    if |batch| < limit {
      assert first == order;
    }
  }

  function OldOutbox<E>(table: map<Outbox.RowId, Outbox.Row<E>>, cutoff: Time): map<Outbox.RowId, Time> {
    map id | id in table && Outbox.Purgeable(table[id], cutoff) :: table[id].publishedAt.value
  }

  function OldProcessed(processed: map<L.Id, Time>, cutoff: Time): map<L.Id, Time> {
    map id | id in processed && processed[id] < cutoff :: processed[id]
  }

  predicate Finished<V>(r: Inbox.Row<V>, cutoff: Time) {
    r.status == Inbox.Completed && r.completedAt.Some? && r.completedAt.value < cutoff
  }

  function OldInbox<V>(rows: map<Inbox.Key, Inbox.Row<V>>, cutoff: Time): map<Inbox.Key, Time> {
    map k | k in rows && Finished(rows[k], cutoff) :: rows[k].completedAt.value
  }

  // What retention may delete from each table, in milliseconds of the clock.

  function DueOutbox<E>(table: map<Outbox.RowId, Outbox.Row<E>>, unlocked: set<Outbox.RowId>, before: Time)
    : set<Outbox.RowId>
  {
    set id | id in table && id in unlocked && table[id].status == Outbox.Published
             && table[id].publishedAt.Some? && table[id].publishedAt.value < before
  }

  function DueProcessed(processed: map<L.Id, Time>, unlocked: set<L.Id>, before: Time): set<L.Id> {
    set id | id in processed && id in unlocked && processed[id] < before
  }

  function DueInbox<V>(rows: map<Inbox.Key, Inbox.Row<V>>, unlocked: set<Inbox.Key>, before: Time): set<Inbox.Key> {
    set k | k in rows && k in unlocked && rows[k].status == Inbox.Completed
            && rows[k].completedAt.Some? && rows[k].completedAt.value < before
  }

  /** Of these rows none but due ones go: all of them if the limit allows, else as many as it allows. */
  ghost predicate Clears<K>(due: set<K>, keys: set<K>, left: set<K>, limit: nat, fails: bool) {
    if fails then left == keys
    else
      && left <= keys && keys - left <= due
      && (|due| <= limit ==> keys - left == due)
      && (|due| > limit ==> |keys - left| == limit)
  }

  lemma BatchClears<K>(c: Candidates<K>, order: seq<K>, limit: nat, due: set<K>, keys: set<K>)
    requires IsOrder(c, order) && due == c.ages.Keys * c.unlocked && due <= keys
    ensures Clears(due, keys, keys - Taken(order, limit), limit, false)
  {
    var batch := Taken(order, limit);
    LimitTakesTheOldest(c, order, limit);
    assert keys - (keys - batch) == batch;
    SubsetSize(batch, due);
    if |due| <= limit && |batch| == limit {
      SameSize(batch, due);
    }
  }

  lemma SameSize<K>(a: set<K>, b: set<K>)
    requires a <= b && |a| == |b|
    ensures a == b
  {
    assert b == a + (b - a);
  }

  lemma KeysLeft<K, V>(rows: map<K, V>, gone: set<K>)
    ensures (rows - gone).Keys == rows.Keys - gone
  {
  }

  lemma OutboxClears<E>(table: map<Outbox.RowId, Outbox.Row<E>>, unlocked: set<Outbox.RowId>, before: Time,
                        order: seq<Outbox.RowId>, limit: nat)
    requires IsOrder(Candidates(OldOutbox(table, before), unlocked), order)
    ensures Clears(DueOutbox(table, unlocked, before), table.Keys, (table - Taken(order, limit)).Keys, limit, false)
  {
    var due := DueOutbox(table, unlocked, before);
    assert due == OldOutbox(table, before).Keys * unlocked;
    KeysLeft(table, Taken(order, limit));
    BatchClears(Candidates(OldOutbox(table, before), unlocked), order, limit, due, table.Keys);
  }

  lemma ProcessedClears(processed: map<L.Id, Time>, unlocked: set<L.Id>, before: Time, order: seq<L.Id>, limit: nat)
    requires IsOrder(Candidates(OldProcessed(processed, before), unlocked), order)
    ensures Clears(DueProcessed(processed, unlocked, before), processed.Keys,
                   (processed - Taken(order, limit)).Keys, limit, false)
  {
    var due := DueProcessed(processed, unlocked, before);
    assert due == OldProcessed(processed, before).Keys * unlocked;
    KeysLeft(processed, Taken(order, limit));
    BatchClears(Candidates(OldProcessed(processed, before), unlocked), order, limit, due, processed.Keys);
  }

  lemma InboxClears<V>(rows: map<Inbox.Key, Inbox.Row<V>>, unlocked: set<Inbox.Key>, before: Time,
                       order: seq<Inbox.Key>, limit: nat)
    requires IsOrder(Candidates(OldInbox(rows, before), unlocked), order)
    ensures Clears(DueInbox(rows, unlocked, before), rows.Keys, (rows - Taken(order, limit)).Keys, limit, false)
  {
    var due := DueInbox(rows, unlocked, before);
    assert due == OldInbox(rows, before).Keys * unlocked;
    KeysLeft(rows, Taken(order, limit));
    BatchClears(Candidates(OldInbox(rows, before), unlocked), order, limit, due, rows.Keys);
  }

  datatype Days = Days(outbox: nat, processed: nat, inbox: nat)

  /** What the three statements of one pass meet: the clock when the target's turn comes, the rows
      other replicas have not locked, the eligible ones of them in order, and whether the statement fails. */
  datatype Pass = Pass(now: nat -> Time, outboxUnlocked: set<Outbox.RowId>, outboxOrder: seq<Outbox.RowId>,
                       processedUnlocked: set<L.Id>, processedOrder: seq<L.Id>,
                       inboxUnlocked: set<Inbox.Key>, inboxOrder: seq<Inbox.Key>, fails: nat -> bool)

  class TechnicalRetention<E(==), V(==)> {
    var outbox: map<Outbox.RowId, Outbox.Row<E>>
    var processed: map<L.Id, Time>
    var inbox: map<Inbox.Key, Inbox.Row<V>>
    const days: Days
    const batchSize: nat

    constructor (days: Days, batchSize: nat)
      ensures outbox == map[] && processed == map[] && inbox == map[]
      ensures this.days == days && this.batchSize == batchSize
    {
      outbox, processed, inbox := map[], map[], map[];
      this.days, this.batchSize := days, batchSize;
    }

    function Cutoff(now: Time, days: nat): Time {
      now - days * 24 * 60 * 60 * 1000
    }

    ghost function OutboxCandidates(p: Pass): Candidates<Outbox.RowId>
      reads this
    {
      Candidates(OldOutbox(outbox, Cutoff(p.now(0), days.outbox)), p.outboxUnlocked)
    }

    ghost function ProcessedCandidates(p: Pass): Candidates<L.Id>
      reads this
    {
      Candidates(OldProcessed(processed, Cutoff(p.now(1), days.processed)), p.processedUnlocked)
    }

    ghost function InboxCandidates(p: Pass): Candidates<Inbox.Key>
      reads this
    {
      Candidates(OldInbox(inbox, Cutoff(p.now(2), days.inbox)), p.inboxUnlocked)
    }

    /** One statement; a failure is caught and logged. */
    method CleanupTarget(target: nat, p: Pass)
      requires target < 3
      modifies this
      ensures outbox ==
              if target != 0 || p.fails(0) then old(outbox) else old(outbox) - Taken(p.outboxOrder, batchSize)
      ensures processed ==
              if target != 1 || p.fails(1) then old(processed) else old(processed) - Taken(p.processedOrder, batchSize)
      ensures inbox ==
              if target != 2 || p.fails(2) then old(inbox) else old(inbox) - Taken(p.inboxOrder, batchSize)
    {
      if p.fails(target) {
        return;
      }
      if target == 0 {
        outbox := outbox - Taken(p.outboxOrder, batchSize);
      } else if target == 1 {
        processed := processed - Taken(p.processedOrder, batchSize);
      } else {
        inbox := inbox - Taken(p.inboxOrder, batchSize);
      }
    }

    lemma PassClearsOutbox(p: Pass)
      requires IsOrder(OutboxCandidates(p), p.outboxOrder)
      ensures Clears(DueOutbox(outbox, p.outboxUnlocked, p.now(0) - days.outbox * 86_400_000),
                     outbox.Keys, (outbox - Taken(p.outboxOrder, batchSize)).Keys, batchSize, false)
    {
      var before := p.now(0) - days.outbox * 86_400_000;
      assert before == Cutoff(p.now(0), days.outbox);
      OutboxClears(outbox, p.outboxUnlocked, before, p.outboxOrder, batchSize);
    }

    lemma PassClearsProcessed(p: Pass)
      requires IsOrder(ProcessedCandidates(p), p.processedOrder)
      ensures Clears(DueProcessed(processed, p.processedUnlocked, p.now(1) - days.processed * 86_400_000),
                     processed.Keys, (processed - Taken(p.processedOrder, batchSize)).Keys, batchSize, false)
    {
      var before := p.now(1) - days.processed * 86_400_000;
      assert before == Cutoff(p.now(1), days.processed);
      ProcessedClears(processed, p.processedUnlocked, before, p.processedOrder, batchSize);
    }

    lemma PassClearsInbox(p: Pass)
      requires IsOrder(InboxCandidates(p), p.inboxOrder)
      ensures Clears(DueInbox(inbox, p.inboxUnlocked, p.now(2) - days.inbox * 86_400_000),
                     inbox.Keys, (inbox - Taken(p.inboxOrder, batchSize)).Keys, batchSize, false)
    {
      var before := p.now(2) - days.inbox * 86_400_000;
      assert before == Cutoff(p.now(2), days.inbox);
      InboxClears(inbox, p.inboxUnlocked, before, p.inboxOrder, batchSize);
    }

    /** Each table loses one batch of its oldest eligible rows. A failing target is logged and
        does not keep the next ones from being cleaned. */
    method Cleanup(p: Pass)
      requires IsOrder(OutboxCandidates(p), p.outboxOrder)
      requires IsOrder(ProcessedCandidates(p), p.processedOrder)
      requires IsOrder(InboxCandidates(p), p.inboxOrder)
      modifies this
      ensures outbox == if p.fails(0) then old(outbox) else old(outbox) - Taken(p.outboxOrder, batchSize)
      ensures processed == if p.fails(1) then old(processed) else old(processed) - Taken(p.processedOrder, batchSize)
      ensures inbox == if p.fails(2) then old(inbox) else old(inbox) - Taken(p.inboxOrder, batchSize)
      ensures IsBatch(old(OutboxCandidates(p)), Taken(p.outboxOrder, batchSize), batchSize)
      ensures IsBatch(old(ProcessedCandidates(p)), Taken(p.processedOrder, batchSize), batchSize)
      ensures IsBatch(old(InboxCandidates(p)), Taken(p.inboxOrder, batchSize), batchSize)
      ensures Clears(DueOutbox(old(outbox), p.outboxUnlocked, p.now(0) - days.outbox * 86_400_000),
                     old(outbox).Keys, outbox.Keys, batchSize, p.fails(0))
      ensures Clears(DueProcessed(old(processed), p.processedUnlocked, p.now(1) - days.processed * 86_400_000),
                     old(processed).Keys, processed.Keys, batchSize, p.fails(1))
      ensures Clears(DueInbox(old(inbox), p.inboxUnlocked, p.now(2) - days.inbox * 86_400_000),
                     old(inbox).Keys, inbox.Keys, batchSize, p.fails(2))
    {
      LimitTakesTheOldest(OutboxCandidates(p), p.outboxOrder, batchSize);
      LimitTakesTheOldest(ProcessedCandidates(p), p.processedOrder, batchSize);
      LimitTakesTheOldest(InboxCandidates(p), p.inboxOrder, batchSize);
      PassClearsOutbox(p);
      PassClearsProcessed(p);
      PassClearsInbox(p);
      for target := 0 to 3
        invariant outbox ==
                  if target < 1 || p.fails(0) then old(outbox) else old(outbox) - Taken(p.outboxOrder, batchSize)
        invariant processed ==
                  if target < 2 || p.fails(1) then old(processed)
                  else old(processed) - Taken(p.processedOrder, batchSize)
        invariant inbox ==
                  if target < 3 || p.fails(2) then old(inbox) else old(inbox) - Taken(p.inboxOrder, batchSize)
      {
        CleanupTarget(target, p);
      }
    }
  }

  /** A pass keeps what the other services still rely on: rows that wait for delivery, unfinished
      inbox rows and everything younger than its cutoff. */
  lemma PassKeepsTheLiving<E, V>(outbox: map<Outbox.RowId, Outbox.Row<E>>, inbox: map<Inbox.Key, Inbox.Row<V>>,
                                 processed: map<L.Id, Time>, outboxBatch: set<Outbox.RowId>,
                                 inboxBatch: set<Inbox.Key>, batch: set<L.Id>, cutoff: Time)
    ensures forall id :: id in outbox
              && (outbox[id].status != Outbox.Published || outbox[id].publishedAt.None?
                  || outbox[id].publishedAt.value >= cutoff)
              ==> id in outbox - (outboxBatch * OldOutbox(outbox, cutoff).Keys)
    ensures forall k :: k in inbox
              && (inbox[k].status != Inbox.Completed || inbox[k].completedAt.None?
                  || inbox[k].completedAt.value >= cutoff)
              ==> k in inbox - (inboxBatch * OldInbox(inbox, cutoff).Keys)
    ensures forall id :: id in processed && processed[id] >= cutoff
              ==> id in processed - (batch * OldProcessed(processed, cutoff).Keys)
  {
  }

  /** The statements are the steps of the machines the theorems are about. */
  lemma PassIsAStep<E>(s: Outbox.State<E>, batch: set<Outbox.RowId>, cutoff: Time)
    ensures Outbox.Step(s, Outbox.Purge(batch, cutoff)).table == s.table - (batch * OldOutbox(s.table, cutoff).Keys)
  {
    var s' := Outbox.Step(s, Outbox.Purge(batch, cutoff));
    assert s'.table.Keys == s.table.Keys - (batch * OldOutbox(s.table, cutoff).Keys);
  }

  lemma ForgetIsAStatement(s: Orders.Store, at: Time, batch: set<L.Id>, window: Time)
    ensures var outdated := OldProcessed(s.processed, at - window);
      Retention.Forget(s, at, batch, window).processed == s.processed - (batch * outdated.Keys)
  {
    var outdated := OldProcessed(s.processed, at - window).Keys;
    assert Retention.Forget(s, at, batch, window).processed.Keys == s.processed.Keys - (batch * outdated);
  }

  lemma PurgeIsAStatement<V>(s: InboxProtocol.State<V>, k: Inbox.Key, cutoff: Time)
    requires |s.hist| > 0 && s.row.Some?
    ensures var rows := map[k := s.row.value];
      Inbox.Lookup(rows - ({k} * OldInbox(rows, cutoff).Keys), k)
      == InboxProtocol.Step(s, InboxProtocol.Purge(cutoff)).row
  {
  }

  /** A backlog shrinks batch by batch: as long as eligible unlocked rows remain, a pass deletes the
      oldest of them, as many as the limit allows. */
  lemma BatchIsFullOrAll<K>(c: Candidates<K>, batch: set<K>, limit: nat)
    requires IsBatch(c, batch, limit)
    ensures |batch| == if |c.ages.Keys * c.unlocked| <= limit then |c.ages.Keys * c.unlocked| else limit
    ensures batch * c.ages.Keys == batch
  {
    SubsetSize(batch, c.ages.Keys * c.unlocked);
    if |c.ages.Keys * c.unlocked| <= limit && |batch| == limit {
      SubsetOfSameSize(batch, c.ages.Keys * c.unlocked);
    }
  }

  lemma SubsetOfSameSize<K>(a: set<K>, b: set<K>)
    requires a <= b && |a| >= |b|
    ensures a == b
  {
    assert b == a + (b - a);
  }
}
