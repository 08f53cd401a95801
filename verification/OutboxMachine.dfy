/** The transactional outbox: packages/outbox/src/postgres-outbox.store.ts and
    outbox-publisher.service.ts, with the administrator's retry and ignore
    (app/order-service/src/modules/outbox-admin) and the retention delete of
    app/order-service/src/modules/retention running beside the publishers. */
module OutboxMachine {
  import opened Common

  type RowId = nat
  type Owner = nat
  type Time = int

  datatype Status = Pending | Published | Failed | Ignored

  datatype Row<+E> = Row(event: E, status: Status, attempts: nat, nextAttemptAt: Option<Time>,
                         lockedBy: Option<Owner>, lockedUntil: Option<Time>, publishedAt: Option<Time>)

  /** What `findPublishable` returned about a row. */
  datatype Item<+E> = Item(id: RowId, event: E, attempts: nat)

  datatype Phase = Publishing | MarkingPublished | MarkingFailed

  /** A publisher's pass over one batch; `items[0]` is the one in hand. */
  datatype Batch<+E> = Batch(items: seq<Item<E>>, phase: Phase, lease: Time)

  /** `inserted` remembers every row ever inserted, `failures` counts the failures
      recorded for it, `failedAt` is the last one no administrator has lifted. */
  datatype State<E> = State(now: Time, table: map<RowId, Row<E>>, batches: map<Owner, Batch<E>>, log: seq<E>,
                            inserted: map<RowId, E>, failures: map<RowId, nat>, failedAt: map<RowId, Time>)

  datatype Op =
    | Publish(appended: bool, ok: bool)   // an error may reach the publisher although the broker took the event
    | MarkPublished(fault: Fault)
    | MarkFailed(fault: Fault)
    | Crash

  datatype Action<+E> =
    | Tick(to: Time)
    | Insert(id: RowId, event: E)
    | Claim(owner: Owner, picked: seq<RowId>, leaseMs: nat)
    | On(owner: Owner, op: Op)
    | Retry(ids: set<RowId>)              // retryOne and makeFailedReadyForRetry
    | Ignore(id: RowId)
    | Purge(ids: set<RowId>, cutoff: Time)

  function Init<E>(): State<E> {
    State(0, map[], map[], [], map[], map[], map[])
  }

  function NewRow<E>(e: E): Row<E> {
    Row(e, Pending, 0, None, None, None, None)
  }

  function Pow2(n: nat): nat {
    if n == 0 then 1 else 2 * Pow2(n - 1)
  }

  function Min(a: int, b: int): int { if a <= b then a else b }

  function RetryDelayMs(attempts: nat): nat {
    Min(30_000, 1000 * Pow2(if attempts == 0 then 0 else attempts - 1))
  }

  predicate Publishable<E>(r: Row<E>, now: Time) {
    && (r.status == Pending || (r.status == Failed && (r.nextAttemptAt.None? || r.nextAttemptAt.value <= now)))
    && (r.lockedUntil.None? || r.lockedUntil.value <= now)
  }

  function Leased<E>(r: Row<E>, owner: Owner, until: Time): Row<E> {
    r.(lockedBy := Some(owner), lockedUntil := Some(until))
  }

  function PublishedRow<E>(r: Row<E>, now: Time): Row<E> {
    r.(status := Published, publishedAt := Some(now), lockedBy := None, lockedUntil := None)
  }

  function FailedRow<E>(r: Row<E>, attempts: nat, now: Time): Row<E> {
    r.(status := Failed, attempts := attempts, nextAttemptAt := Some(now + RetryDelayMs(attempts)),
       lockedBy := None, lockedUntil := None)
  }

  function RetriedRow<E>(r: Row<E>): Row<E> {
    r.(nextAttemptAt := None, lockedBy := None, lockedUntil := None)
  }

  function IgnoredRow<E>(r: Row<E>): Row<E> {
    r.(status := Ignored, nextAttemptAt := None, lockedBy := None, lockedUntil := None)
  }

  /** The table with the rows of `ids` leased to `owner`. */
  function LeaseAll<E>(table: map<RowId, Row<E>>, ids: seq<RowId>, owner: Owner, until: Time): map<RowId, Row<E>> {
    map id | id in table :: if id in ids then Leased(table[id], owner, until) else table[id]
  }

  function ItemsOf<E>(table: map<RowId, Row<E>>, ids: seq<RowId>): seq<Item<E>>
    requires forall id :: id in ids ==> id in table
  {
    seq(|ids|, i requires 0 <= i < |ids| => Item(ids[i], table[ids[i]].event, table[ids[i]].attempts))
  }

  /** Any distinct publishable rows can be a batch: the limit, the order and the
      rows other transactions have locked decide which. */
  predicate Claimable<E>(s: State<E>, owner: Owner, ids: seq<RowId>) {
    && owner !in s.batches
    && (forall i, j :: 0 <= i < j < |ids| ==> ids[i] != ids[j])
    && (forall id :: id in ids ==> id in s.table && Publishable(s.table[id], s.now))
  }

  function StepClaim<E>(s: State<E>, owner: Owner, ids: seq<RowId>, leaseMs: nat): State<E> {
    if ids == [] || !Claimable(s, owner, ids) then s
    else
      s.(table := LeaseAll(s.table, ids, owner, s.now + leaseMs),
         batches := s.batches[owner := Batch(ItemsOf(s.table, ids), Publishing, s.now + leaseMs)])
  }

  /** The publisher turns to the next item, or ends its pass. */
  function Advance<E>(s: State<E>, owner: Owner): State<E>
    requires owner in s.batches && s.batches[owner].items != []
  {
    var b := s.batches[owner];
    s.(batches := if |b.items| == 1 then s.batches - {owner}
                  else s.batches[owner := b.(items := b.items[1..], phase := Publishing)])
  }

  function Enter<E>(s: State<E>, owner: Owner, phase: Phase): State<E>
    requires owner in s.batches
  {
    s.(batches := s.batches[owner := s.batches[owner].(phase := phase)])
  }

  function StepPublish<E>(s: State<E>, owner: Owner, appended: bool, ok: bool): State<E>
    requires owner in s.batches && s.batches[owner].items != []
  {
    var b := s.batches[owner];
    if b.phase != Publishing then s
    else
      Enter(s.(log := if appended || ok then s.log + [b.items[0].event] else s.log), owner,
            if ok then MarkingPublished else MarkingFailed)
  }

  function StepMarkPublished<E>(s: State<E>, owner: Owner, fault: Fault): State<E>
    requires owner in s.batches && s.batches[owner].items != []
  {
    var b := s.batches[owner];
    var id := b.items[0].id;
    if b.phase != MarkingPublished then s
    else
      var marked := if fault.LostBefore? || id !in s.table then s
                    else s.(table := s.table[id := PublishedRow(s.table[id], s.now)]);
      if fault.NoFault? then Advance(marked, owner) else Enter(marked, owner, MarkingFailed)
  }

  /** A committed `markFailed`. */
  function RecordFailure<E>(s: State<E>, item: Item<E>): State<E>
    requires item.id in s.table
  {
    s.(table := s.table[item.id := FailedRow(s.table[item.id], item.attempts + 1, s.now)],
       failures := s.failures[item.id := (if item.id in s.failures then s.failures[item.id] else 0) + 1],
       failedAt := s.failedAt[item.id := s.now])
  }

  /** An error from `markFailed` itself is swallowed: the pass goes on. */
  function StepMarkFailed<E>(s: State<E>, owner: Owner, fault: Fault): State<E>
    requires owner in s.batches && s.batches[owner].items != []
  {
    var b := s.batches[owner];
    var item := b.items[0];
    if b.phase != MarkingFailed then s
    else if fault.LostBefore? || item.id !in s.table then Advance(s, owner)
    else Advance(RecordFailure(s, item), owner)
  }

  function StepOn<E>(s: State<E>, owner: Owner, op: Op): State<E>
    requires owner in s.batches
  {
    if op.Crash? || s.batches[owner].items == [] then s.(batches := s.batches - {owner})
    else
      match op
      case Publish(appended, ok) => StepPublish(s, owner, appended, ok)
      case MarkPublished(fault) => StepMarkPublished(s, owner, fault)
      case MarkFailed(fault) => StepMarkFailed(s, owner, fault)
      case Crash => s
  }

  function StepRetry<E>(s: State<E>, ids: set<RowId>): State<E> {
    s.(table := map id | id in s.table ::
         if id in ids && s.table[id].status == Failed then RetriedRow(s.table[id]) else s.table[id],
       failedAt := map id | id in s.failedAt
                     && !(id in ids && id in s.table && s.table[id].status == Failed) :: s.failedAt[id])
  }

  predicate Ignorable<E>(s: State<E>, id: RowId) {
    id in s.table && (s.table[id].status == Failed || s.table[id].status == Pending)
  }

  predicate Purgeable<E>(r: Row<E>, cutoff: Time) {
    r.status == Published && r.publishedAt.Some? && r.publishedAt.value < cutoff
  }

  function StepPurge<E>(s: State<E>, ids: set<RowId>, cutoff: Time): State<E> {
    s.(table := map id | id in s.table && !(id in ids && Purgeable(s.table[id], cutoff)) :: s.table[id])
  }

  function Step<E>(s: State<E>, a: Action<E>): State<E> {
    match a
    case Tick(to) => if s.now <= to then s.(now := to) else s
    case Insert(id, e) =>
      if id in s.inserted then s
      else s.(table := s.table[id := NewRow(e)], inserted := s.inserted[id := e])
    case Claim(owner, ids, leaseMs) => StepClaim(s, owner, ids, leaseMs)
    case On(owner, op) => if owner in s.batches then StepOn(s, owner, op) else s
    case Retry(ids) => StepRetry(s, ids)
    case Ignore(id) => if Ignorable(s, id) then s.(table := s.table[id := IgnoredRow(s.table[id])]) else s
    case Purge(ids, cutoff) => StepPurge(s, ids, cutoff)
  }

  function Run<E>(s: State<E>, acts: seq<Action<E>>): State<E>
    decreases |acts|
  {
    if acts == [] then s else Step(Run(s, acts[..|acts| - 1]), acts[|acts| - 1])
  }

  lemma RunStep<E>(s: State<E>, acts: seq<Action<E>>, a: Action<E>)
    ensures Run(s, acts + [a]) == Step(Run(s, acts), a)
  {
    assert (acts + [a])[..|acts|] == acts;
  }
}
