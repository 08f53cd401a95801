/** Conservation without premises; exclusion and terminality with a timing premise. */
module OutboxTheorems {
  import opened Common
  import opened OutboxMachine

  // ------------------------------------------------------------- conservation

  ghost predicate RowSafe<E>(s: State<E>, id: RowId)
    requires id in s.inserted
  {
    && (id in s.table ==> s.table[id].event == s.inserted[id])
    && (id !in s.table || s.table[id].status == Published ==> s.inserted[id] in s.log)
  }

  ghost predicate BatchSafe<E>(s: State<E>, b: Batch<E>) {
    && (forall item :: item in b.items ==> item.id in s.inserted && item.event == s.inserted[item.id])
    && (b.phase == MarkingPublished && b.items != [] ==> b.items[0].event in s.log)
  }

  ghost predicate Counted<E>(s: State<E>, id: RowId, attempts: nat) {
    attempts == 0 || (id in s.failures && attempts <= s.failures[id])
  }

  ghost predicate Safe<E>(s: State<E>) {
    && s.table.Keys <= s.inserted.Keys
    && (forall id :: id in s.inserted ==> RowSafe(s, id))
    && (forall o :: o in s.batches ==> BatchSafe(s, s.batches[o]))
    && (forall id :: id in s.table ==> Counted(s, id, s.table[id].attempts))
    && (forall o, item :: o in s.batches && item in s.batches[o].items ==> Counted(s, item.id, item.attempts))
    && BacksOff(s)
  }

  /** A FAILED row waits from its last failure on. */
  ghost predicate BacksOff<E>(s: State<E>) {
    forall id :: id in s.table && id in s.failedAt && s.table[id].status == Failed ==>
      s.table[id].nextAttemptAt == Some(s.failedAt[id] + RetryDelayMs(s.table[id].attempts))
  }

  lemma ClaimKeepsSafe<E>(s: State<E>, owner: Owner, ids: seq<RowId>, leaseMs: nat)
    requires Safe(s)
    ensures Safe(StepClaim(s, owner, ids, leaseMs))
  {
    if ids != [] && Claimable(s, owner, ids) {
      var s' := StepClaim(s, owner, ids, leaseMs);
      LeasedRowsSafe(s, s', ids, owner, s.now + leaseMs);
      ClaimedBatchSafe(s, s', ids, s'.batches[owner]);
      BatchesStaySafe(s, s', s.batches);
      assert s'.batches == s.batches[owner := s'.batches[owner]];
    }
  }

  /** Batches depend on what was inserted and on what the log and the counters have at least. */
  lemma BatchesStaySafe<E>(s: State<E>, s': State<E>, batches: map<Owner, Batch<E>>)
    requires forall o :: o in batches ==> BatchSafe(s, batches[o])
    requires forall o, item :: o in batches && item in batches[o].items ==> Counted(s, item.id, item.attempts)
    requires forall id :: id in s.inserted ==> id in s'.inserted && s'.inserted[id] == s.inserted[id]
    requires s.log <= s'.log
    requires forall i :: i in s.failures ==> i in s'.failures && s.failures[i] <= s'.failures[i]
    ensures forall o :: o in batches ==> BatchSafe(s', batches[o])
    ensures forall o, item :: o in batches && item in batches[o].items ==> Counted(s', item.id, item.attempts)
  {
    forall o | o in batches
      ensures BatchSafe(s', batches[o])
    {
      assert BatchSafe(s, batches[o]);
    }
    forall o, item | o in batches && item in batches[o].items
      ensures Counted(s', item.id, item.attempts)
    {
      assert Counted(s, item.id, item.attempts);
    }
  }

  lemma LeasedRowsSafe<E>(s: State<E>, s': State<E>, ids: seq<RowId>, owner: Owner, until: Time)
    requires Safe(s) && s'.inserted == s.inserted && s'.log == s.log
    requires s'.failures == s.failures && s'.failedAt == s.failedAt
    requires s'.table == LeaseAll(s.table, ids, owner, until)
    ensures forall id :: id in s.inserted ==> RowSafe(s', id)
    ensures forall id :: id in s'.table ==> Counted(s', id, s'.table[id].attempts)
    ensures BacksOff(s') && s'.table.Keys == s.table.Keys
  {
    assert forall id :: id in s.table ==>
             s'.table[id] == s.table[id] || s'.table[id] == Leased(s.table[id], owner, until);
    forall id | id in s.inserted ensures RowSafe(s', id) {
      assert RowSafe(s, id);
    }
    forall id | id in s'.table ensures Counted(s', id, s'.table[id].attempts) {
      assert Counted(s, id, s.table[id].attempts);
    }
  }

  lemma ClaimedBatchSafe<E>(s: State<E>, s': State<E>, ids: seq<RowId>, b: Batch<E>)
    requires Safe(s) && s'.inserted == s.inserted && s'.failures == s.failures
    requires (forall id :: id in ids ==> id in s.table) && b.items == ItemsOf(s.table, ids) && b.phase == Publishing
    ensures BatchSafe(s', b)
    ensures forall item :: item in b.items ==> Counted(s', item.id, item.attempts)
  {
    forall item | item in b.items
      ensures item.id in s.inserted && item.event == s.inserted[item.id] && Counted(s', item.id, item.attempts)
    {
      assert item.id in s.table && item == Item(item.id, s.table[item.id].event, s.table[item.id].attempts);
      assert RowSafe(s, item.id) && Counted(s, item.id, s.table[item.id].attempts);
    }
  }

  lemma AdvanceKeepsSafe<E>(s: State<E>, owner: Owner)
    requires Safe(s) && owner in s.batches && s.batches[owner].items != []
    ensures Safe(Advance(s, owner))
  {
    var b := s.batches[owner];
    assert BatchSafe(s, b);
    assert forall item :: item in b.items[1..] ==> item in b.items;
  }

  lemma PublishKeepsSafe<E>(s: State<E>, owner: Owner, appended: bool, ok: bool)
    requires Safe(s) && owner in s.batches && s.batches[owner].items != []
    ensures Safe(StepPublish(s, owner, appended, ok))
  {
    var b := s.batches[owner];
    assert BatchSafe(s, b);
    if b.phase == Publishing {
      var sent := s.(log := if appended || ok then s.log + [b.items[0].event] else s.log);
      LogKeepsSafe(s, sent);
      EnterPhaseKeepsSafe(sent, owner, if ok then MarkingPublished else MarkingFailed);
    }
  }

  lemma LogKeepsSafe<E>(s: State<E>, s': State<E>)
    requires Safe(s) && s' == s.(log := s'.log) && s.log <= s'.log
    ensures Safe(s')
  {
    forall o | o in s'.batches
      ensures BatchSafe(s', s'.batches[o])
    {
      assert BatchSafe(s, s.batches[o]);
    }
    forall id | id in s.inserted
      ensures RowSafe(s', id)
    {
      assert RowSafe(s, id);
    }
  }

  lemma EnterPhaseKeepsSafe<E>(s: State<E>, owner: Owner, phase: Phase)
    requires Safe(s) && owner in s.batches && s.batches[owner].items != []
    requires phase == MarkingPublished ==> s.batches[owner].items[0].event in s.log
    ensures Safe(Enter(s, owner, phase))
  {
    assert BatchSafe(s, s.batches[owner]);
  }

  /** Replacing the row of an inserted event by one that is safe itself. */
  lemma SetRowKeepsSafe<E>(s: State<E>, s': State<E>, id: RowId, row: Row<E>)
    requires Safe(s) && id in s.inserted
    requires s' == s.(table := s.table[id := row], failures := s'.failures, failedAt := s'.failedAt)
    requires row.event == s.inserted[id] && (row.status == Published ==> row.event in s.log)
    requires forall i :: i in s.failures ==> i in s'.failures && s.failures[i] <= s'.failures[i]
    requires Counted(s', id, row.attempts)
    requires forall i :: i in s'.failedAt && i != id ==> i in s.failedAt && s'.failedAt[i] == s.failedAt[i]
    requires row.status == Failed && id in s'.failedAt ==>
               row.nextAttemptAt == Some(s'.failedAt[id] + RetryDelayMs(row.attempts))
    ensures Safe(s')
  {
    forall i | i in s.inserted
      ensures RowSafe(s', i)
    {
      assert RowSafe(s, i);
    }
    BatchesStaySafe(s, s', s.batches);
  }

  lemma EnterKeepsSafe<E>(s: State<E>, owner: Owner, phase: Phase)
    requires Safe(s) && owner in s.batches && phase != MarkingPublished
    ensures Safe(Enter(s, owner, phase))
  {
    assert BatchSafe(s, s.batches[owner]);
  }

  lemma MarkPublishedKeepsSafe<E>(s: State<E>, owner: Owner, fault: Fault)
    requires Safe(s) && owner in s.batches && s.batches[owner].items != []
    ensures Safe(StepMarkPublished(s, owner, fault))
  {
    var b := s.batches[owner];
    if b.phase == MarkingPublished {
      var id := b.items[0].id;
      assert BatchSafe(s, b) && b.items[0] in b.items;
      assert RowSafe(s, id);
      var marked := s;
      if !fault.LostBefore? && id in s.table {
        marked := s.(table := s.table[id := PublishedRow(s.table[id], s.now)]);
        SetRowKeepsSafe(s, marked, id, PublishedRow(s.table[id], s.now));
      }
      if fault.NoFault? {
        AdvanceKeepsSafe(marked, owner);
      } else {
        EnterKeepsSafe(marked, owner, MarkingFailed);
      }
    }
  }

  lemma RecordFailureKeepsSafe<E>(s: State<E>, item: Item<E>)
    requires Safe(s) && item.id in s.table && Counted(s, item.id, item.attempts)
    ensures Safe(RecordFailure(s, item))
  {
    assert RowSafe(s, item.id);
    SetRowKeepsSafe(s, RecordFailure(s, item), item.id, FailedRow(s.table[item.id], item.attempts + 1, s.now));
  }

  lemma MarkFailedKeepsSafe<E>(s: State<E>, owner: Owner, fault: Fault)
    requires Safe(s) && owner in s.batches && s.batches[owner].items != []
    ensures Safe(StepMarkFailed(s, owner, fault))
  {
    var b := s.batches[owner];
    if b.phase == MarkingFailed {
      var item := b.items[0];
      assert item in b.items;
      if fault.LostBefore? || item.id !in s.table {
        AdvanceKeepsSafe(s, owner);
      } else {
        RecordFailureKeepsSafe(s, item);
        AdvanceKeepsSafe(RecordFailure(s, item), owner);
      }
    }
  }

  lemma StepOnKeepsSafe<E>(s: State<E>, owner: Owner, op: Op)
    requires Safe(s) && owner in s.batches
    ensures Safe(StepOn(s, owner, op))
  {
    if !op.Crash? && s.batches[owner].items != [] {
      match op
      case Publish(appended, ok) => PublishKeepsSafe(s, owner, appended, ok);
      case MarkPublished(fault) => MarkPublishedKeepsSafe(s, owner, fault);
      case MarkFailed(fault) => MarkFailedKeepsSafe(s, owner, fault);
    }
  }

  /** Steps that touch neither log nor batches only have to keep the rows safe. */
  lemma TableKeepsSafe<E>(s: State<E>, s': State<E>)
    requires Safe(s)
    requires s'.batches == s.batches && s'.log == s.log && s'.failures == s.failures
    requires s'.table.Keys <= s'.inserted.Keys
    requires forall id :: id in s.inserted ==> id in s'.inserted && s'.inserted[id] == s.inserted[id]
    requires forall id :: id in s'.inserted ==> RowSafe(s', id)
    requires forall id :: id in s'.table ==>
               s'.table[id].attempts == 0 || (id in s.table && s'.table[id].attempts == s.table[id].attempts)
    requires forall id :: id in s'.table && id in s'.failedAt && s'.table[id].status == Failed
               ==> id in s.table && id in s.failedAt && s'.failedAt[id] == s.failedAt[id] && s'.table[id] == s.table[id]
    ensures Safe(s')
  {
    forall o | o in s'.batches
      ensures BatchSafe(s', s'.batches[o])
    {
      assert BatchSafe(s, s.batches[o]);
    }
  }

  lemma InsertKeepsSafe<E>(s: State<E>, id: RowId, e: E)
    requires Safe(s)
    ensures Safe(Step(s, Insert(id, e)))
  {
    if id !in s.inserted {
      var s' := Step(s, Insert(id, e));
      forall i | i in s'.inserted
        ensures RowSafe(s', i)
      {
        assert i in s.inserted ==> RowSafe(s, i);
      }
      TableKeepsSafe(s, s');
    }
  }

  lemma RetryKeepsSafe<E>(s: State<E>, ids: set<RowId>)
    requires Safe(s)
    ensures Safe(StepRetry(s, ids))
  {
    var s' := StepRetry(s, ids);
    forall i | i in s'.inserted
      ensures RowSafe(s', i)
    {
      assert RowSafe(s, i);
    }
    TableKeepsSafe(s, s');
  }

  lemma IgnoreKeepsSafe<E>(s: State<E>, id: RowId)
    requires Safe(s)
    ensures Safe(Step(s, Ignore(id)))
  {
    if Ignorable(s, id) {
      assert RowSafe(s, id);
      SetRowKeepsSafe(s, Step(s, Ignore(id)), id, IgnoredRow(s.table[id]));
    }
  }

  lemma PurgeKeepsSafe<E>(s: State<E>, ids: set<RowId>, cutoff: Time)
    requires Safe(s)
    ensures Safe(StepPurge(s, ids, cutoff))
  {
    var s' := StepPurge(s, ids, cutoff);
    forall i | i in s'.inserted
      ensures RowSafe(s', i)
    {
      assert RowSafe(s, i);
    }
    TableKeepsSafe(s, s');
  }

  lemma TickKeepsSafe<E>(s: State<E>, to: Time)
    requires Safe(s)
    ensures Safe(s.(now := to))
  {
    var s' := s.(now := to);
    forall o | o in s'.batches
      ensures BatchSafe(s', s'.batches[o])
    {
      assert BatchSafe(s, s.batches[o]);
    }
    forall id | id in s.inserted
      ensures RowSafe(s', id)
    {
      assert RowSafe(s, id);
    }
  }

  lemma StepKeepsSafe<E>(s: State<E>, a: Action<E>)
    requires Safe(s)
    ensures Safe(Step(s, a))
  {
    match a
    case Claim(owner, ids, leaseMs) => ClaimKeepsSafe(s, owner, ids, leaseMs);
    case On(owner, op) =>
      if owner in s.batches {
        StepOnKeepsSafe(s, owner, op);
      }
    case Insert(id, e) => InsertKeepsSafe(s, id, e);
    case Tick(to) => TickKeepsSafe(s, to);
    case Retry(ids) => RetryKeepsSafe(s, ids);
    case Ignore(id) => IgnoreKeepsSafe(s, id);
    case Purge(ids, cutoff) => PurgeKeepsSafe(s, ids, cutoff);
  }

  lemma {:induction false} RunKeepsSafe<E>(acts: seq<Action<E>>)
    ensures Safe(Run(Init(), acts))
  {
    if acts != [] {
      RunKeepsSafe(acts[..|acts| - 1]);
      StepKeepsSafe(Run(Init(), acts[..|acts| - 1]), acts[|acts| - 1]);
    }
  }

  /** No event is lost: whatever was inserted still waits in the table, was taken
      out by an operator, or is in the broker log. A row says PUBLISHED, or is
      gone, only when its event is in the log. */
  lemma Conservation<E>(acts: seq<Action<E>>, id: RowId)
    requires id in Run(Init(), acts).inserted
    ensures var s := Run(Init(), acts);
      && (|| s.inserted[id] in s.log
          || (id in s.table && s.table[id].event == s.inserted[id] && s.table[id].status != Published))
      && (id !in s.table || s.table[id].status == Published ==> s.inserted[id] in s.log)
  {
    RunKeepsSafe(acts);
    assert RowSafe(Run(Init(), acts), id);
  }

  /** `attempts` never exceeds the failures recorded for the row. */
  lemma AttemptsNeverExceedFailures<E>(acts: seq<Action<E>>, id: RowId)
    requires id in Run(Init(), acts).table && Run(Init(), acts).table[id].attempts > 0
    ensures var s := Run(Init(), acts); id in s.failures && s.table[id].attempts <= s.failures[id]
  {
    RunKeepsSafe(acts);
    assert Counted(Run(Init(), acts), id, Run(Init(), acts).table[id].attempts);
  }

  // ------------------------------------------------------------------ backoff

  lemma {:induction false} DelayDoublesUpToCap(attempts: nat)
    requires attempts >= 1
    ensures 1000 <= RetryDelayMs(attempts) <= RetryDelayMs(attempts + 1) <= 30_000
    ensures attempts <= 4 ==> RetryDelayMs(attempts + 1) == 2 * RetryDelayMs(attempts)
    ensures RetryDelayMs(attempts) == 30_000 <==> attempts >= 6
    ensures RetryDelayMs(1) == 1000
  {
    if attempts >= 6 {
      Pow2AtLeast(attempts - 1);
    }
    assert Pow2(4) == 16 && Pow2(3) == 8 && Pow2(2) == 4 && Pow2(1) == 2;
  }

  lemma {:induction false} Pow2AtLeast(n: nat)
    requires n >= 5
    ensures Pow2(n) >= 32
  {
    if n > 5 {
      Pow2AtLeast(n - 1);
    } else {
      assert Pow2(4) == 16;
    }
  }

  ghost predicate NeverRetried<E>(acts: seq<Action<E>>, id: RowId) {
    forall a :: a in acts && a.Retry? ==> id !in a.ids
  }

  lemma FailureStaysRecorded<E>(s: State<E>, a: Action<E>, id: RowId)
    requires id in s.table && s.table[id].status == Failed ==> id in s.failedAt
    requires a.Retry? ==> id !in a.ids
    ensures id in Step(s, a).table && Step(s, a).table[id].status == Failed ==> id in Step(s, a).failedAt
  {
    if a.On? && a.owner in s.batches {
      FailureStaysRecordedOn(s, a.owner, a.op, id);
    }
  }

  lemma FailureStaysRecordedOn<E>(s: State<E>, owner: Owner, op: Op, id: RowId)
    requires id in s.table && s.table[id].status == Failed ==> id in s.failedAt
    requires owner in s.batches
    ensures var s' := StepOn(s, owner, op);
      id in s'.table && s'.table[id].status == Failed ==> id in s'.failedAt
  {
  }

  lemma {:induction false} FailureIsRecorded<E>(acts: seq<Action<E>>, id: RowId)
    requires NeverRetried(acts, id)
    ensures var s := Run(Init(), acts);
      id in s.table && s.table[id].status == Failed ==> id in s.failedAt
  {
    if acts != [] {
      var before, last := acts[..|acts| - 1], acts[|acts| - 1];
      FailureIsRecorded(before, id);
      assert last in acts;
      FailureStaysRecorded(Run(Init(), before), last, id);
    }
  }

  /** A FAILED row that no administrator retried is claimed no sooner after its last failure
      than its backoff allows. */
  lemma BackoffIsKept<E>(acts: seq<Action<E>>, owner: Owner, ids: seq<RowId>, id: RowId)
    requires NeverRetried(acts, id)
    requires Claimable(Run(Init(), acts), owner, ids) && id in ids && id in Run(Init(), acts).table
    requires Run(Init(), acts).table[id].status == Failed
    ensures var s := Run(Init(), acts);
      id in s.failedAt && s.failedAt[id] + RetryDelayMs(s.table[id].attempts) <= s.now
  {
    RunKeepsSafe(acts);
    FailureIsRecorded(acts, id);
  }

  // --------------------------------------------------------- what ends PUBLISHED

  /** Batch `o` is about to commit `op` on row `id`. */
  ghost predicate Marks<E>(s: State<E>, a: Action<E>, id: RowId, phase: Phase) {
    && a.On? && a.owner in s.batches
    && s.batches[a.owner].items != [] && s.batches[a.owner].items[0].id == id && s.batches[a.owner].phase == phase
    && ((phase == MarkingFailed && a.op.MarkFailed?) || (phase == MarkingPublished && a.op.MarkPublished?))
    && !a.op.fault.LostBefore?
  }

  /** The mark calls are not fenced by owner: exactly a `markFailed` of a batch that
      still holds the row takes it out of PUBLISHED, and exactly a mark call takes it
      out of IGNORED. */
  lemma WhatEndsATerminalStatus<E>(s: State<E>, a: Action<E>, id: RowId)
    requires id in s.inserted && id in s.table && id in Step(s, a).table
    ensures s.table[id].status == Published ==>
              (Step(s, a).table[id].status != Published <==> Marks(s, a, id, MarkingFailed))
    ensures s.table[id].status == Ignored ==>
              (Step(s, a).table[id].status != Ignored
               <==> Marks(s, a, id, MarkingFailed) || Marks(s, a, id, MarkingPublished))
  {
  }

  // ------------------------------------------------------- attempts against failures

  /** `attempts` is the number of failures recorded for the row. */
  ghost predicate Exact<E>(s: State<E>, id: RowId)
    requires id in s.table
  {
    s.table[id].attempts == if id in s.failures then s.failures[id] else 0
  }

  /** A failure is written back with a count read before some other write to the row. */
  ghost predicate StaleMark<E>(s: State<E>, a: Action<E>, id: RowId) {
    && Marks(s, a, id, MarkingFailed) && id in s.table
    && s.batches[a.owner].items[0].attempts != s.table[id].attempts
  }

  function FailuresOf<E>(s: State<E>, id: RowId): nat {
    if id in s.failures then s.failures[id] else 0
  }

  lemma AdvanceKeepsCounts<E>(s: State<E>, owner: Owner)
    requires owner in s.batches && s.batches[owner].items != []
    ensures Advance(s, owner).table == s.table && Advance(s, owner).failures == s.failures
    ensures forall o :: o in Advance(s, owner).batches ==> o in s.batches
    ensures forall o, item :: o in Advance(s, owner).batches && item in Advance(s, owner).batches[o].items
              ==> item in s.batches[o].items
  {
    var b := s.batches[owner];
    assert forall i :: i in b.items[1..] ==> i in b.items;
  }

  lemma CountsAfterFailure<E>(s: State<E>, owner: Owner, fault: Fault, id: RowId)
    requires owner in s.batches && s.batches[owner].items != [] && s.batches[owner].phase == MarkingFailed
    requires id in s.table
    ensures var s', item := StepMarkFailed(s, owner, fault), s.batches[owner].items[0];
      && id in s'.table
      && if item.id == id && !fault.LostBefore?
         then s'.table[id].attempts == item.attempts + 1 && FailuresOf(s', id) == FailuresOf(s, id) + 1
         else s'.table[id].attempts == s.table[id].attempts && FailuresOf(s', id) == FailuresOf(s, id)
  {
    var item := s.batches[owner].items[0];
    if fault.LostBefore? || item.id !in s.table {
      AdvanceKeepsCounts(s, owner);
    } else {
      AdvanceKeepsCounts(RecordFailure(s, item), owner);
    }
  }

  lemma CountsAfterPublished<E>(s: State<E>, owner: Owner, fault: Fault, id: RowId)
    requires owner in s.batches && s.batches[owner].items != [] && id in s.table
    ensures var s' := StepMarkPublished(s, owner, fault);
      id in s'.table && s'.table[id].attempts == s.table[id].attempts && FailuresOf(s', id) == FailuresOf(s, id)
  {
  }

  lemma CountsAfterOn<E>(s: State<E>, owner: Owner, op: Op, id: RowId)
    requires owner in s.batches && id in s.table
    ensures var s' := StepOn(s, owner, op);
      && id in s'.table
      && if Marks(s, On(owner, op), id, MarkingFailed)
         then
           && s'.table[id].attempts == s.batches[owner].items[0].attempts + 1
           && FailuresOf(s', id) == FailuresOf(s, id) + 1
         else s'.table[id].attempts == s.table[id].attempts && FailuresOf(s', id) == FailuresOf(s, id)
  {
    var b := s.batches[owner];
    if op.MarkFailed? && b.items != [] && b.phase == MarkingFailed {
      CountsAfterFailure(s, owner, op.fault, id);
    } else if op.MarkPublished? && b.items != [] {
      CountsAfterPublished(s, owner, op.fault, id);
    }
  }

  /** A step changes the two counts of a row only by recording a failure. */
  lemma CountsAfter<E>(s: State<E>, a: Action<E>, id: RowId)
    requires id in s.inserted && id in s.table && id in Step(s, a).table
    ensures var s' := Step(s, a);
      if Marks(s, a, id, MarkingFailed)
      then
        && s'.table[id].attempts == s.batches[a.owner].items[0].attempts + 1
        && FailuresOf(s', id) == FailuresOf(s, id) + 1
      else s'.table[id].attempts == s.table[id].attempts && FailuresOf(s', id) == FailuresOf(s, id)
  {
    if a.On? && a.owner in s.batches {
      CountsAfterOn(s, a.owner, a.op, id);
    }
  }

  lemma ItemsAfterPublished<E>(s: State<E>, owner: Owner, fault: Fault, o: Owner, item: Item<E>)
    requires owner in s.batches && s.batches[owner].items != []
    requires o in StepMarkPublished(s, owner, fault).batches
    requires item in StepMarkPublished(s, owner, fault).batches[o].items
    ensures o in s.batches && item in s.batches[o].items
  {
    var id := s.batches[owner].items[0].id;
    var marked := if fault.LostBefore? || id !in s.table then s.table
                  else s.table[id := PublishedRow(s.table[id], s.now)];
    AdvanceKeepsCounts(s.(table := marked), owner);
  }

  lemma ItemsAfterFailed<E>(s: State<E>, owner: Owner, fault: Fault, o: Owner, item: Item<E>)
    requires owner in s.batches && s.batches[owner].items != []
    requires o in StepMarkFailed(s, owner, fault).batches && item in StepMarkFailed(s, owner, fault).batches[o].items
    ensures o in s.batches && item in s.batches[o].items
  {
    var first := s.batches[owner].items[0];
    if fault.LostBefore? || first.id !in s.table {
      AdvanceKeepsCounts(s, owner);
    } else {
      AdvanceKeepsCounts(RecordFailure(s, first), owner);
    }
  }

  lemma ItemsAfterOn<E>(s: State<E>, owner: Owner, op: Op, o: Owner, item: Item<E>)
    requires owner in s.batches && o in StepOn(s, owner, op).batches && item in StepOn(s, owner, op).batches[o].items
    ensures o in s.batches && item in s.batches[o].items
  {
    if !op.Crash? && s.batches[owner].items != [] {
      match op
      case MarkPublished(fault) => ItemsAfterPublished(s, owner, fault, o, item);
      case MarkFailed(fault) => ItemsAfterFailed(s, owner, fault, o, item);
      case _ =>
    }
  }

  lemma ItemsAfterClaim<E>(s: State<E>, owner: Owner, ids: seq<RowId>, leaseMs: nat, o: Owner, item: Item<E>)
    requires o in StepClaim(s, owner, ids, leaseMs).batches
    requires item in StepClaim(s, owner, ids, leaseMs).batches[o].items
    ensures
      || (o in s.batches && item in s.batches[o].items)
      || (item.id in s.table && item.attempts == s.table[item.id].attempts)
  {
  }

  /** A batch holds the counts it was claimed with. */
  lemma ItemsAfter<E>(s: State<E>, a: Action<E>, o: Owner, item: Item<E>)
    requires o in Step(s, a).batches && item in Step(s, a).batches[o].items
    ensures
      || (o in s.batches && item in s.batches[o].items)
      || (item.id in s.table && item.attempts == s.table[item.id].attempts)
  {
    match a
    case On(owner, op) =>
      if owner in s.batches {
        ItemsAfterOn(s, owner, op, o, item);
      }
    case Claim(owner, ids, leaseMs) => ItemsAfterClaim(s, owner, ids, leaseMs, o, item);
    case _ =>
  }

  /** From equality exactly a stale `markFailed` leads away. */
  lemma ExactUntilStale<E>(s: State<E>, a: Action<E>, id: RowId)
    requires id in s.inserted && id in s.table && id in Step(s, a).table && Exact(s, id)
    ensures Exact(Step(s, a), id) <==> !StaleMark(s, a, id)
  {
    CountsAfter(s, a, id);
    assert Exact(Step(s, a), id) <==> Step(s, a).table[id].attempts == FailuresOf(Step(s, a), id);
  }

  /** The count fell behind: every copy of it, in the row or in a batch, is too small. */
  ghost predicate Behind<E>(s: State<E>, id: RowId) {
    && id in s.table && s.table[id].attempts < FailuresOf(s, id)
    && forall o, item :: o in s.batches && item in s.batches[o].items ==> ItemBehind(s, id, item)
  }

  ghost predicate ItemBehind<E>(s: State<E>, id: RowId, item: Item<E>) {
    item.id == id ==> item.attempts < FailuresOf(s, id)
  }

  lemma StaleFallsBehind<E>(s: State<E>, a: Action<E>, id: RowId)
    requires Safe(s) && id in s.table && id in Step(s, a).table && Exact(s, id) && StaleMark(s, a, id)
    ensures Behind(Step(s, a), id)
  {
    var s', first := Step(s, a), s.batches[a.owner].items[0];
    CountsAfter(s, a, id);
    assert first in s.batches[a.owner].items && Counted(s, first.id, first.attempts);
    forall o, item | o in s'.batches && item in s'.batches[o].items
      ensures ItemBehind(s', id, item)
    {
      ItemsAfter(s, a, o, item);
      assert o in s.batches && item in s.batches[o].items ==> Counted(s, item.id, item.attempts);
    }
  }

  lemma BehindStays<E>(s: State<E>, a: Action<E>, id: RowId)
    requires id in s.inserted && Behind(s, id) && id in Step(s, a).table
    ensures Behind(Step(s, a), id)
  {
    var s' := Step(s, a);
    CountsAfter(s, a, id);
    if Marks(s, a, id, MarkingFailed) {
      var first := s.batches[a.owner].items[0];
      assert first in s.batches[a.owner].items && ItemBehind(s, id, first);
    }
    forall o, item | o in s'.batches && item in s'.batches[o].items
      ensures ItemBehind(s', id, item)
    {
      ItemsAfter(s, a, o, item);
      assert o in s.batches && item in s.batches[o].items ==> ItemBehind(s, id, item);
    }
  }

  ghost predicate NeverStale<E>(acts: seq<Action<E>>, id: RowId)
    decreases |acts|
  {
    || acts == []
    || (&& NeverStale(acts[..|acts| - 1], id)
        && !StaleMark(Run(Init(), acts[..|acts| - 1]), acts[|acts| - 1], id))
  }

  ghost predicate Untouched<E>(s: State<E>, id: RowId) {
    id !in s.inserted && id !in s.table && id !in s.failures
  }

  lemma UntouchedBefore<E>(s: State<E>, a: Action<E>, id: RowId)
    requires s.table.Keys <= s.inserted.Keys && id !in Step(s, a).inserted
    ensures id !in s.inserted && !StaleMark(s, a, id)
    ensures Untouched(s, id) ==> Untouched(Step(s, a), id)
  {
  }

  lemma {:induction false} NothingBeforeInsert<E>(acts: seq<Action<E>>, id: RowId)
    requires id !in Run(Init(), acts).inserted
    ensures NeverStale(acts, id) && Untouched(Run(Init(), acts), id)
  {
    if acts != [] {
      var before, last := acts[..|acts| - 1], acts[|acts| - 1];
      RunKeepsSafe(before);
      UntouchedBefore(Run(Init(), before), last, id);
      NothingBeforeInsert(before, id);
    }
  }

  lemma InsertedExact<E>(s: State<E>, a: Action<E>, id: RowId)
    requires id !in s.table && id in Step(s, a).table
    ensures id !in s.inserted && !StaleMark(s, a, id)
    ensures Untouched(s, id) ==> Exact(Step(s, a), id)
  {
  }

  lemma ExactOrBehindStep<E>(s: State<E>, a: Action<E>, id: RowId)
    requires Safe(s) && id in s.table && id in Step(s, a).table && (Exact(s, id) || Behind(s, id))
    ensures if Exact(s, id) && !StaleMark(s, a, id) then Exact(Step(s, a), id) else Behind(Step(s, a), id)
  {
    if Exact(s, id) {
      ExactUntilStale(s, a, id);
      if StaleMark(s, a, id) {
        StaleFallsBehind(s, a, id);
      }
    } else {
      BehindStays(s, a, id);
    }
  }

  lemma {:induction false} ExactOrBehind<E>(acts: seq<Action<E>>, id: RowId)
    requires id in Run(Init(), acts).table
    ensures if NeverStale(acts, id) then Exact(Run(Init(), acts), id) else Behind(Run(Init(), acts), id)
  {
    var before, last := acts[..|acts| - 1], acts[|acts| - 1];
    var s := Run(Init(), before);
    if id in s.table {
      RunKeepsSafe(before);
      ExactOrBehind(before, id);
      ExactOrBehindStep(s, last, id);
    } else {
      InsertedExact(s, last, id);
      NothingBeforeInsert(before, id);
    }
  }

  /** Without premises `attempts` is the number of recorded failures if and only if no failure
      was ever written back with a stale count; once it is too small it stays too small. */
  lemma AttemptsExactlyWhen<E>(acts: seq<Action<E>>, id: RowId)
    requires id in Run(Init(), acts).table
    ensures Exact(Run(Init(), acts), id) <==> NeverStale(acts, id)
  {
    ExactOrBehind(acts, id);
  }

  // ---------------------------------------------------------- exclusion, in time

  predicate Unleased<E>(s: State<E>, id: RowId) {
    id in s.table ==> s.table[id].lockedUntil.None? || s.table[id].lockedUntil.value <= s.now
  }

  /** The timing premise: a pass ends before its lease, and administrators touch only
      unleased rows. */
  ghost predicate Timely<E>(s: State<E>, a: Action<E>) {
    match a
    case Tick(to) => forall o :: o in s.batches && s.batches[o].items != [] ==> to < s.batches[o].lease
    case Claim(_, _, leaseMs) => leaseMs > 0
    case Retry(ids) => forall id :: id in ids ==> Unleased(s, id)
    case Ignore(id) => Unleased(s, id)
    case _ => true
  }

  ghost predicate TimelyRun<E>(acts: seq<Action<E>>)
    decreases |acts|
  {
    acts == [] || (TimelyRun(acts[..|acts| - 1]) && Timely(Run(Init(), acts[..|acts| - 1]), acts[|acts| - 1]))
  }

  /** A `markPublished` that committed although its caller saw an error. */
  predicate LosesReply<E>(a: Action<E>) {
    a.On? && a.op == MarkPublished(LostAfter)
  }

  ghost predicate HoldsRow<E>(s: State<E>, o: Owner, b: Batch<E>, item: Item<E>) {
    && item.id in s.table
    && var r := s.table[item.id];
       && r.lockedBy == Some(o) && r.lockedUntil == Some(b.lease)
       && (r.status == Pending || r.status == Failed)
       && r.attempts == item.attempts
  }

  /** The row was published behind the publisher's back, and may be deleted since. */
  ghost predicate PublishedAlready<E>(s: State<E>, item: Item<E>) {
    item.id in s.table ==> s.table[item.id].status == Published && s.table[item.id].attempts == item.attempts
  }

  /** A batch holds its rows; only if replies can get `lost`, the row it is about to mark failed
      may have been published. */
  ghost predicate ItemOk<E>(s: State<E>, o: Owner, b: Batch<E>, k: int, lost: bool)
    requires 0 <= k < |b.items|
  {
    || HoldsRow(s, o, b, b.items[k])
    || (lost && k == 0 && b.phase == MarkingFailed && PublishedAlready(s, b.items[0]))
  }

  ghost predicate Holds<E>(s: State<E>, o: Owner, b: Batch<E>, lost: bool) {
    && (b.items != [] ==> s.now < b.lease)
    && (forall k :: 0 <= k < |b.items| ==> ItemOk(s, o, b, k, lost) && b.items[k].id in s.inserted)
  }

  /** Two places in batches never name one row. */
  ghost predicate Apart<E>(b: Batch<E>, c: Batch<E>) {
    forall i, j :: 0 <= i < |b.items| && 0 <= j < |c.items| ==> b.items[i].id != c.items[j].id
  }

  ghost predicate NoRepeat<E>(b: Batch<E>) {
    forall i, j :: 0 <= i < j < |b.items| ==> b.items[i].id != b.items[j].id
  }

  ghost predicate Exclusive<E>(s: State<E>, lost: bool) {
    && (forall o :: o in s.batches ==> Holds(s, o, s.batches[o], lost) && NoRepeat(s.batches[o]))
    && (forall o, p :: o in s.batches && p in s.batches && o != p ==> Apart(s.batches[o], s.batches[p]))
    && s.table.Keys <= s.inserted.Keys
    && s.failures.Keys <= s.inserted.Keys
    && (forall id :: id in s.table ==> Exact(s, id))
  }

  ghost predicate SameRow<E>(s: State<E>, s': State<E>, id: RowId) {
    if id in s.table then id in s'.table && s'.table[id] == s.table[id] else id !in s'.table
  }

  lemma HoldsStays<E>(s: State<E>, s': State<E>, o: Owner, b: Batch<E>, lost: bool)
    requires Holds(s, o, b, lost) && s'.now == s.now && s.inserted.Keys <= s'.inserted.Keys
    requires forall k :: 0 <= k < |b.items| ==> SameRow(s, s', b.items[k].id)
    ensures Holds(s', o, b, lost)
  {
    forall k | 0 <= k < |b.items|
      ensures ItemOk(s', o, b, k, lost) && b.items[k].id in s'.inserted
    {
      assert ItemOk(s, o, b, k, lost) && SameRow(s, s', b.items[k].id);
    }
  }

  lemma HeldIsNotPublishable<E>(s: State<E>, o: Owner, k: nat, lost: bool)
    requires Exclusive(s, lost) && o in s.batches && k < |s.batches[o].items|
    ensures var id := s.batches[o].items[k].id; id in s.table ==> !Publishable(s.table[id], s.now)
  {
    assert Holds(s, o, s.batches[o], lost) && ItemOk(s, o, s.batches[o], k, lost);
  }

  lemma ClaimKeepsExclusive<E>(s: State<E>, owner: Owner, ids: seq<RowId>, leaseMs: nat, lost: bool)
    requires Exclusive(s, lost) && leaseMs > 0
    ensures Exclusive(StepClaim(s, owner, ids, leaseMs), lost)
  {
    if ids != [] && Claimable(s, owner, ids) {
      var s' := StepClaim(s, owner, ids, leaseMs);
      var b := s'.batches[owner];
      forall k | 0 <= k < |b.items|
        ensures ItemOk(s', owner, b, k, lost) && b.items[k].id in s.inserted
      {
        assert ids[k] in ids && ids[k] in s.table;
        assert HoldsRow(s', owner, b, b.items[k]);
      }
      forall o | o in s.batches
        ensures Holds(s', o, s.batches[o], lost) && Apart(s.batches[o], b) && Apart(b, s.batches[o])
      {
        OtherBatchKeeps(s, s', owner, ids, leaseMs, o, lost);
      }
      assert forall id :: id in s.table ==> s'.table[id].attempts == s.table[id].attempts && Exact(s, id);
    }
  }

  lemma OtherBatchKeeps<E>(s: State<E>, s': State<E>, owner: Owner, ids: seq<RowId>, leaseMs: nat, o: Owner, lost: bool)
    requires Exclusive(s, lost) && ids != [] && Claimable(s, owner, ids) && s' == StepClaim(s, owner, ids, leaseMs)
    requires o in s.batches
    ensures Holds(s', o, s.batches[o], lost)
    ensures Apart(s.batches[o], s'.batches[owner]) && Apart(s'.batches[owner], s.batches[o])
  {
    var c := s.batches[o];
    forall k | 0 <= k < |c.items|
      ensures c.items[k].id !in ids && SameRow(s, s', c.items[k].id)
    {
      HeldIsNotPublishable(s, o, k, lost);
    }
    assert Holds(s, o, c, lost);
    HoldsStays(s, s', o, c, lost);
    assert forall i :: 0 <= i < |ids| ==> s'.batches[owner].items[i].id == ids[i] && ids[i] in ids;
  }

  /** The batch of `owner` turns its page after the row of the item in hand changed. */
  lemma AdvanceKeepsExclusive<E>(s: State<E>, s1: State<E>, owner: Owner, lost: bool)
    requires Exclusive(s, lost) && owner in s.batches && s.batches[owner].items != []
    requires s1.batches == s.batches && s1.now == s.now && s1.inserted == s.inserted
    requires s1.table.Keys == s.table.Keys && s1.failures.Keys <= s1.inserted.Keys
    requires forall id :: id in s.table && id != s.batches[owner].items[0].id ==> s1.table[id] == s.table[id]
    requires forall id :: id in s1.table ==> Exact(s1, id)
    ensures Exclusive(Advance(s1, owner), lost)
  {
    var s' := Advance(s1, owner);
    var b := s.batches[owner];
    assert Holds(s, owner, b, lost) && NoRepeat(b);
    forall o | o in s'.batches
      ensures Holds(s', o, s'.batches[o], lost) && NoRepeat(s'.batches[o])
    {
      if o != owner {
        assert Holds(s, o, s.batches[o], lost) && Apart(s.batches[o], b) && NoRepeat(s.batches[o]);
        HoldsStays(s, s', o, s.batches[o], lost);
      } else {
        PageKeeps(s, s', owner, b, s'.batches[o], lost);
      }
    }
    forall o, p | o in s'.batches && p in s'.batches && o != p
      ensures Apart(s'.batches[o], s'.batches[p])
    {
      assert Apart(s.batches[o], s.batches[p]);
    }
    assert forall id :: id in s'.table ==> Exact(s1, id);
  }

  lemma PageKeeps<E>(s: State<E>, s': State<E>, owner: Owner, b: Batch<E>, c: Batch<E>, lost: bool)
    requires Holds(s, owner, b, lost) && NoRepeat(b) && |b.items| > 1 && s'.now == s.now && s'.inserted == s.inserted
    requires c == b.(items := b.items[1..], phase := Publishing)
    requires forall id :: id != b.items[0].id ==> SameRow(s, s', id)
    ensures Holds(s', owner, c, lost) && NoRepeat(c)
  {
    forall k | 0 <= k < |c.items|
      ensures ItemOk(s', owner, c, k, lost) && c.items[k].id in s'.inserted
    {
      assert c.items[k] == b.items[k + 1];
      assert ItemOk(s, owner, b, k + 1, lost) && SameRow(s, s', b.items[k + 1].id);
      assert HoldsRow(s', owner, c, c.items[k]);
    }
  }

  /** A new phase for the item in hand; only in MarkingFailed its row may be published already. */
  lemma EnterKeepsExclusive<E>(s: State<E>, s1: State<E>, owner: Owner, phase: Phase, lost: bool)
    requires Exclusive(s, lost) && owner in s.batches && s.batches[owner].items != []
    requires s1.batches == s.batches && s1.now == s.now && s1.inserted == s.inserted && s1.failures == s.failures
    requires s1.table.Keys == s.table.Keys
    requires forall id :: id in s1.table ==> s1.table[id].attempts == s.table[id].attempts
    requires forall id :: id in s.table && id != s.batches[owner].items[0].id ==> s1.table[id] == s.table[id]
    requires var b := s.batches[owner];
      HoldsRow(s1, owner, b, b.items[0]) || (lost && phase == MarkingFailed && PublishedAlready(s1, b.items[0]))
    ensures Exclusive(Enter(s1, owner, phase), lost)
  {
    var s' := Enter(s1, owner, phase);
    var b := s.batches[owner];
    assert Holds(s, owner, b, lost) && NoRepeat(b);
    forall o | o in s'.batches
      ensures Holds(s', o, s'.batches[o], lost) && NoRepeat(s'.batches[o])
    {
      if o != owner {
        assert Holds(s, o, s.batches[o], lost) && Apart(s.batches[o], b) && NoRepeat(s.batches[o]);
        HoldsStays(s, s', o, s.batches[o], lost);
      } else {
        PhaseKeeps(s, s1, owner, b, phase, lost);
      }
    }
    forall o, p | o in s'.batches && p in s'.batches && o != p
      ensures Apart(s'.batches[o], s'.batches[p])
    {
      assert Apart(s.batches[o], s.batches[p]);
    }
    assert forall id :: id in s'.table ==> Exact(s, id);
  }

  lemma PhaseKeeps<E>(s: State<E>, s1: State<E>, owner: Owner, b: Batch<E>, phase: Phase, lost: bool)
    requires Holds(s, owner, b, lost) && NoRepeat(b) && b.items != [] && s1.now == s.now && s1.inserted == s.inserted
    requires forall id :: id != b.items[0].id ==> SameRow(s, s1, id)
    requires HoldsRow(s1, owner, b, b.items[0]) || (lost && phase == MarkingFailed && PublishedAlready(s1, b.items[0]))
    ensures Holds(s1, owner, b.(phase := phase), lost)
  {
    var c := b.(phase := phase);
    forall k | 0 <= k < |c.items|
      ensures ItemOk(s1, owner, c, k, lost) && c.items[k].id in s1.inserted
    {
      assert ItemOk(s, owner, b, k, lost);
      if k > 0 {
        assert b.items[0].id != b.items[k].id && SameRow(s, s1, b.items[k].id);
      }
    }
  }

  lemma CrashKeepsExclusive<E>(s: State<E>, owner: Owner, lost: bool)
    requires Exclusive(s, lost)
    ensures Exclusive(s.(batches := s.batches - {owner}), lost)
  {
    var s' := s.(batches := s.batches - {owner});
    forall o | o in s'.batches
      ensures Holds(s', o, s'.batches[o], lost)
    {
      assert Holds(s, o, s.batches[o], lost);
      HoldsStays(s, s', o, s.batches[o], lost);
    }
    assert forall id :: id in s.table ==> Exact(s, id);
  }

  lemma PublishKeepsExclusive<E>(s: State<E>, owner: Owner, appended: bool, ok: bool, lost: bool)
    requires Exclusive(s, lost) && owner in s.batches && s.batches[owner].items != []
    ensures Exclusive(StepPublish(s, owner, appended, ok), lost)
  {
    var b := s.batches[owner];
    if b.phase == Publishing {
      assert Holds(s, owner, b, lost) && ItemOk(s, owner, b, 0, lost);
      var sent := s.(log := if appended || ok then s.log + [b.items[0].event] else s.log);
      EnterKeepsExclusive(s, sent, owner, if ok then MarkingPublished else MarkingFailed, lost);
    }
  }

  lemma PublishedKeepsExclusive<E>(s: State<E>, owner: Owner, fault: Fault, lost: bool)
    requires Exclusive(s, lost) && owner in s.batches && s.batches[owner].items != []
    requires fault.LostAfter? ==> lost
    ensures Exclusive(StepMarkPublished(s, owner, fault), lost)
  {
    var b := s.batches[owner];
    if b.phase == MarkingPublished {
      var id := b.items[0].id;
      assert Holds(s, owner, b, lost) && ItemOk(s, owner, b, 0, lost);
      assert HoldsRow(s, owner, b, b.items[0]);
      assert forall i :: i in s.table ==> Exact(s, i);
      if fault.LostBefore? {
        EnterKeepsExclusive(s, s, owner, MarkingFailed, lost);
      } else {
        var marked := s.(table := s.table[id := PublishedRow(s.table[id], s.now)]);
        assert forall i :: i in marked.table ==> Exact(marked, i);
        if fault.NoFault? {
          AdvanceKeepsExclusive(s, marked, owner, lost);
        } else {
          EnterKeepsExclusive(s, marked, owner, MarkingFailed, lost);
        }
      }
    }
  }

  lemma FailedKeepsExclusive<E>(s: State<E>, owner: Owner, fault: Fault, lost: bool)
    requires Exclusive(s, lost) && owner in s.batches && s.batches[owner].items != []
    ensures Exclusive(StepMarkFailed(s, owner, fault), lost)
  {
    var b := s.batches[owner];
    if b.phase == MarkingFailed {
      var item := b.items[0];
      assert Holds(s, owner, b, lost) && ItemOk(s, owner, b, 0, lost);
      assert forall i :: i in s.table ==> Exact(s, i);
      if fault.LostBefore? || item.id !in s.table {
        AdvanceKeepsExclusive(s, s, owner, lost);
      } else {
        RecordKeepsExact(s, item);
        AdvanceKeepsExclusive(s, RecordFailure(s, item), owner, lost);
      }
    }
  }

  lemma RecordKeepsExact<E>(s: State<E>, item: Item<E>)
    requires item.id in s.table && s.table[item.id].attempts == item.attempts
    requires forall id :: id in s.table ==> Exact(s, id)
    ensures forall id :: id in RecordFailure(s, item).table ==> Exact(RecordFailure(s, item), id)
  {
    var s' := RecordFailure(s, item);
    forall id | id in s'.table ensures Exact(s', id) {
      assert id in s.table && Exact(s, id) && Exact(s, item.id);
    }
  }

  lemma StepOnKeepsExclusive<E>(s: State<E>, owner: Owner, op: Op, lost: bool)
    requires Exclusive(s, lost) && owner in s.batches && (op == MarkPublished(LostAfter) ==> lost)
    ensures Exclusive(StepOn(s, owner, op), lost)
  {
    if op.Crash? || s.batches[owner].items == [] {
      CrashKeepsExclusive(s, owner, lost);
    } else {
      match op
      case Publish(appended, ok) => PublishKeepsExclusive(s, owner, appended, ok, lost);
      case MarkPublished(fault) => PublishedKeepsExclusive(s, owner, fault, lost);
      case MarkFailed(fault) => FailedKeepsExclusive(s, owner, fault, lost);
    }
  }

  lemma AdminKeepsExclusive<E>(s: State<E>, a: Action<E>, lost: bool)
    requires Exclusive(s, lost) && Timely(s, a) && !a.Claim? && !a.On?
    ensures Exclusive(Step(s, a), lost)
  {
    var s' := Step(s, a);
    forall o | o in s'.batches
      ensures Holds(s', o, s'.batches[o], lost)
    {
      assert Holds(s, o, s.batches[o], lost);
      forall k | 0 <= k < |s.batches[o].items|
        ensures ItemOk(s', o, s.batches[o], k, lost)
      {
        AdminLeavesItem(s, a, o, k, lost);
      }
    }
    AdminKeepsExact(s, a);
  }

  lemma AdminKeepsExact<E>(s: State<E>, a: Action<E>)
    requires forall id :: id in s.table ==> Exact(s, id)
    requires forall id :: id in s.failures ==> id in s.inserted
    requires !a.Claim? && !a.On?
    ensures forall id :: id in Step(s, a).table ==> Exact(Step(s, a), id)
  {
    forall id | id in Step(s, a).table ensures Exact(Step(s, a), id) {
      if id in s.table {
        assert Exact(s, id);
      }
    }
  }

  lemma AdminLeavesItem<E>(s: State<E>, a: Action<E>, o: Owner, k: nat, lost: bool)
    requires Exclusive(s, lost) && Timely(s, a) && !a.Claim? && !a.On?
    requires o in s.batches && k < |s.batches[o].items|
    ensures ItemOk(Step(s, a), o, s.batches[o], k, lost)
  {
    assert Holds(s, o, s.batches[o], lost) && ItemOk(s, o, s.batches[o], k, lost);
  }

  lemma StepKeepsExclusive<E>(s: State<E>, a: Action<E>, lost: bool)
    requires Exclusive(s, lost) && Timely(s, a) && (LosesReply(a) ==> lost)
    ensures Exclusive(Step(s, a), lost)
  {
    match a
    case Claim(owner, ids, leaseMs) => ClaimKeepsExclusive(s, owner, ids, leaseMs, lost);
    case On(owner, op) =>
      if owner in s.batches {
        StepOnKeepsExclusive(s, owner, op, lost);
      }
    case _ => AdminKeepsExclusive(s, a, lost);
  }

  lemma {:induction false} TimelyRunIsExclusive<E>(acts: seq<Action<E>>, lost: bool)
    requires TimelyRun(acts) && (lost || forall a :: a in acts ==> !LosesReply(a))
    ensures Exclusive(Run(Init(), acts), lost)
  {
    if acts != [] {
      TimelyRunIsExclusive(acts[..|acts| - 1], lost);
      assert acts[|acts| - 1] in acts;
      StepKeepsExclusive(Run(Init(), acts[..|acts| - 1]), acts[|acts| - 1], lost);
    }
  }

  /** In time, no row is in two live batches, nor twice in one. */
  lemma NoRowInTwoBatches<E>(acts: seq<Action<E>>, o: Owner, p: Owner, i: nat, j: nat)
    requires TimelyRun(acts)
    requires var s := Run(Init(), acts);
      && o in s.batches && i < |s.batches[o].items|
      && p in s.batches && j < |s.batches[p].items| && s.batches[o].items[i].id == s.batches[p].items[j].id
    ensures o == p && i == j
  {
    var s := Run(Init(), acts);
    TimelyRunIsExclusive(acts, true);
    assert NoRepeat(s.batches[o]);
    assert o != p ==> Apart(s.batches[o], s.batches[p]);
  }

  /** In time, `attempts` is exactly the number of failures recorded for the row. */
  lemma AttemptsCountFailuresInTime<E>(acts: seq<Action<E>>, id: RowId)
    requires TimelyRun(acts) && id in Run(Init(), acts).table
    ensures Exact(Run(Init(), acts), id)
  {
    TimelyRunIsExclusive(acts, true);
  }

  /** What a batch in time marks. */
  lemma MarksHeldRow<E>(s: State<E>, a: Action<E>, id: RowId, phase: Phase, lost: bool)
    requires Exclusive(s, lost) && id in s.table && (Marks(s, a, id, phase))
    ensures s.table[id].status == Pending || s.table[id].status == Failed
         || (lost && phase == MarkingFailed && s.table[id].status == Published)
  {
    var b := s.batches[a.owner];
    assert Holds(s, a.owner, b, lost) && ItemOk(s, a.owner, b, 0, lost);
  }

  /** In time, IGNORED is terminal: the row keeps its status for as long as it exists. So is
      PUBLISHED, unless some `markPublished` committed and its reply was lost. */
  lemma TerminalInTime<E>(acts: seq<Action<E>>, a: Action<E>, id: RowId)
    requires TimelyRun(acts)
    requires id in Run(Init(), acts).table && id in Run(Init(), acts + [a]).table
    ensures var before, after := Run(Init(), acts).table[id].status, Run(Init(), acts + [a]).table[id].status;
      && (before == Ignored ==> after == Ignored)
      && (before == Published && (forall b :: b in acts ==> !LosesReply(b)) ==> after == Published)
  {
    var s := Run(Init(), acts);
    var lost := exists b :: b in acts && LosesReply(b);
    TimelyRunIsExclusive(acts, lost);
    RunKeepsSafe(acts);
    RunStep(Init(), acts, a);
    WhatEndsATerminalStatus(s, a, id);
    if Marks(s, a, id, MarkingFailed) {
      MarksHeldRow(s, a, id, MarkingFailed, lost);
    }
    if Marks(s, a, id, MarkingPublished) {
      MarksHeldRow(s, a, id, MarkingPublished, lost);
    }
  }

  // ------------------------------------------------- why the premises are there

  /** A publisher outlives its lease, another publishes the row, then the first
      one's publish fails and its mark call takes the row out of PUBLISHED. */
  function StalePublisher<E>(e: E): seq<Action<E>> {
    [Insert(0, e), Claim(1, [0], 10), Tick(10), Claim(2, [0], 10), On(2, Publish(true, true)),
     On(2, MarkPublished(NoFault)), On(1, Publish(false, false)), On(1, MarkFailed(NoFault))]
  }

  /** The lease holds, but the reply to `markPublished` is lost after it committed. */
  function LostReply<E>(e: E): seq<Action<E>> {
    [Insert(0, e), Claim(1, [0], 10), On(1, Publish(true, true)), On(1, MarkPublished(LostAfter)),
     On(1, MarkFailed(NoFault))]
  }

  lemma RunPrefixes<E>(acts: seq<Action<E>>)
    ensures Run(Init(), acts[..0]) == Init()
    ensures forall i :: 0 <= i < |acts| ==> Run(Init(), acts[..i + 1]) == Step(Run(Init(), acts[..i]), acts[i])
  {
    forall i | 0 <= i < |acts|
      ensures Run(Init(), acts[..i + 1]) == Step(Run(Init(), acts[..i]), acts[i])
    {
      assert acts[..i + 1] == acts[..i] + [acts[i]];
      RunStep(Init(), acts[..i], acts[i]);
    }
  }

  /** The first publisher's batch over the one row, and that row. */
  ghost predicate StaleHolds<E>(s: State<E>, e: E) {
    s.batches == map[1 := Batch([Item(0, e, 0)], Publishing, 10)] && s.table.Keys == {0}
  }

  lemma StaleBegins<E>(e: E)
    ensures var acts := StalePublisher(e);
      var s := Step(Step(Init(), acts[0]), acts[1]);
      StaleHolds(s, e) && s.table == map[0 := Leased(NewRow(e), 1, 10)] && s.now == 0
  {
    var s := Step(Step(Init(), StalePublisher(e)[0]), StalePublisher(e)[1]);
    assert s.batches[1].items == [Item(0, e, 0)];
  }

  lemma StaleOvertaken<E>(e: E, s: State<E>)
    requires StaleHolds(s, e) && s.table == map[0 := Leased(NewRow(e), 1, 10)] && s.now == 0
    ensures var acts := StalePublisher(e);
      var s' := Step(Step(Step(Step(s, acts[2]), acts[3]), acts[4]), acts[5]);
      StaleHolds(s', e) && s'.table[0].status == Published
  {
    var acts := StalePublisher(e);
    var s4 := Step(Step(s, acts[2]), acts[3]);
    assert s4.table[0] == Leased(NewRow(e), 2, 20);
    assert s4.batches[2] == Batch([Item(0, e, 0)], Publishing, 20);
    assert s4.batches[1] == s.batches[1];
  }

  lemma StaleStrikes<E>(e: E, s: State<E>)
    requires StaleHolds(s, e)
    ensures var acts := StalePublisher(e);
      var s' := Step(Step(s, acts[6]), acts[7]);
      0 in s'.table && s'.table[0].status == Failed
  {
  }

  lemma StalePublisherUnpublishes<E>(e: E)
    ensures 0 in Run(Init(), StalePublisher(e)[..6]).table && 0 in Run(Init(), StalePublisher(e)).table
    ensures Run(Init(), StalePublisher(e)[..6]).table[0].status == Published
    ensures Run(Init(), StalePublisher(e)).table[0].status == Failed
  {
    var acts := StalePublisher(e);
    RunPrefixes(acts);
    StaleBegins(e);
    StaleOvertaken(e, Run(Init(), acts[..2]));
    StaleStrikes(e, Run(Init(), acts[..6]));
    assert acts[..8] == acts;
  }

  lemma LostReplyUnpublishes<E>(e: E)
    ensures 0 in Run(Init(), LostReply(e)[..4]).table && 0 in Run(Init(), LostReply(e)).table
    ensures Run(Init(), LostReply(e)[..4]).table[0].status == Published
    ensures Run(Init(), LostReply(e)).table[0].status == Failed
  {
    var acts := LostReply(e);
    RunPrefixes(acts);
    var s2 := Run(Init(), acts[..2]);
    assert s2.table[0] == Leased(NewRow(e), 1, 10);
    assert s2.batches[1] == Batch([Item(0, e, 0)], Publishing, 10);
    var s4 := Run(Init(), acts[..4]);
    assert s4.table[0].status == Published && s4.batches[1].phase == MarkingFailed;
    assert acts[..5] == acts;
  }

  /** Two publishers hold the row, both fail, and the second overwrites the count of the first. */
  function StaleCount<E>(e: E): seq<Action<E>> {
    [Insert(0, e), Claim(1, [0], 10), Tick(10), Claim(2, [0], 10), On(1, Publish(false, false)),
     On(2, Publish(false, false)), On(1, MarkFailed(NoFault)), On(2, MarkFailed(NoFault))]
  }

  /** Both batches are about to record the failure of the row. */
  ghost predicate BothFail<E>(s: State<E>, e: E) {
    && s.batches == map[1 := Batch([Item(0, e, 0)], MarkingFailed, 10), 2 := Batch([Item(0, e, 0)], MarkingFailed, 20)]
    && 0 in s.table && s.failures == map[]
  }

  lemma BothClaim<E>(e: E)
    ensures var acts := StaleCount(e);
      BothFail(Step(Step(Step(Step(Step(Step(Init(), acts[0]), acts[1]), acts[2]), acts[3]), acts[4]), acts[5]), e)
  {
    var acts := StaleCount(e);
    StaleBegins(e);
    var s2 := Step(Step(Init(), acts[0]), acts[1]);
    var s4 := Step(Step(s2, acts[2]), acts[3]);
    assert s4.batches[2] == Batch([Item(0, e, 0)], Publishing, 20);
    assert s4.batches[1] == s2.batches[1] == Batch([Item(0, e, 0)], Publishing, 10);
  }

  lemma SecondFailureOverwrites<E>(e: E, s: State<E>)
    requires BothFail(s, e)
    ensures var t := Step(Step(s, On(1, MarkFailed(NoFault))), On(2, MarkFailed(NoFault)));
      0 in t.table && t.table[0].attempts == 1 && 0 in t.failures && t.failures[0] == 2
  {
    var s1 := Step(s, On(1, MarkFailed(NoFault)));
    assert s1.batches == map[2 := s.batches[2]];
    assert 0 in s1.failures && s1.failures[0] == 1;
  }

  lemma StaleCountIsTooSmall<E>(e: E)
    ensures var t := Run(Init(), StaleCount(e));
      0 in t.table && t.table[0].attempts == 1 && 0 in t.failures && t.failures[0] == 2
  {
    var acts := StaleCount(e);
    RunPrefixes(acts);
    BothClaim(e);
    SecondFailureOverwrites(e, Run(Init(), acts[..6]));
    assert acts[..8] == acts;
  }
}
