/** What the outbox does for an event that waits: when a publisher can claim its row, that a pass
    over a due row publishes it, and that no failure, crash or lease keeps it waiting for ever. */
module OutboxProgress {
  import opened Common
  import opened OutboxMachine
  import opened OutboxTheorems

  /** A row the publishers are to take now: not tried yet, or its backoff is over or was lifted;
      and nobody holds it. */
  predicate Due<E>(r: Row<E>, now: Time) {
    && (|| r.status == Pending
        || (r.status == Failed && r.nextAttemptAt.None?)
        || (r.status == Failed && r.nextAttemptAt.Some? && r.nextAttemptAt.value <= now))
    && (r.lockedUntil.Some? ==> r.lockedUntil.value <= now)
  }

  /** An idle publisher can claim rows exactly if all of them are due. */
  lemma ClaimedExactlyWhenDue<E>(s: State<E>, owner: Owner, ids: seq<RowId>, leaseMs: nat)
    requires owner !in s.batches && ids != [] && NoDup(ids)
    ensures var s' := Step(s, Claim(owner, ids, leaseMs));
      && (owner in s'.batches <==> forall id :: id in ids ==> id in s.table && Due(s.table[id], s.now))
      && (owner !in s'.batches ==> s' == s)
      && (owner in s'.batches ==>
            && s'.table.Keys == s.table.Keys
            && forall id :: id in s.table ==>
                 s'.table[id] == if id !in ids then s.table[id]
                                 else s.table[id].(lockedBy := Some(owner), lockedUntil := Some(s.now + leaseMs)))
  {
  }

  /** The awaits of a pass over one row. */
  function Pass<E>(owner: Owner, id: RowId, leaseMs: nat, appended: bool, ok: bool): seq<Action<E>> {
    [Claim(owner, [id], leaseMs), On(owner, Publish(appended, ok)),
     On(owner, if ok then MarkPublished(NoFault) else MarkFailed(NoFault))]
  }

  lemma PassRuns<E>(s: State<E>, owner: Owner, id: RowId, leaseMs: nat, appended: bool, ok: bool)
    ensures var pass := Pass(owner, id, leaseMs, appended, ok);
      Run(s, pass) == Step(Step(Step(s, pass[0]), pass[1]), pass[2])
  {
    var pass: seq<Action<E>> := Pass(owner, id, leaseMs, appended, ok);
    var none: seq<Action<E>> := [];
    RunStep(s, none, pass[0]);
    RunStep(s, none + [pass[0]], pass[1]);
    RunStep(s, none + [pass[0]] + [pass[1]], pass[2]);
    assert pass == none + [pass[0]] + [pass[1]] + [pass[2]];
  }

  /** The state after claim and publish; the mark call is left. */
  lemma BeforeMark<E>(s: State<E>, owner: Owner, id: RowId, leaseMs: nat, appended: bool, ok: bool)
    returns (u: State<E>)
    requires id in s.table && Due(s.table[id], s.now) && owner !in s.batches
    ensures Run(s, Pass(owner, id, leaseMs, appended, ok))
         == Step(u, On(owner, if ok then MarkPublished(NoFault) else MarkFailed(NoFault)))
    ensures u.now == s.now && u.failures == s.failures && u.inserted == s.inserted && u.failedAt == s.failedAt
    ensures u.log == if appended || ok then s.log + [s.table[id].event] else s.log
    ensures u.table == s.table[id := s.table[id].(lockedBy := Some(owner), lockedUntil := Some(s.now + leaseMs))]
    ensures var items := [Item(id, s.table[id].event, s.table[id].attempts)];
      u.batches == s.batches[owner := Batch(items, if ok then MarkingPublished else MarkingFailed, s.now + leaseMs)]
  {
    PassRuns(s, owner, id, leaseMs, appended, ok);
    u := ClaimAndPublish(s, owner, id, leaseMs, appended, ok);
  }

  lemma ClaimAndPublish<E>(s: State<E>, owner: Owner, id: RowId, leaseMs: nat, appended: bool, ok: bool)
    returns (u: State<E>)
    requires id in s.table && Due(s.table[id], s.now) && owner !in s.batches
    ensures u == Step(Step(s, Claim(owner, [id], leaseMs)), On(owner, Publish(appended, ok)))
    ensures u.now == s.now && u.failures == s.failures && u.inserted == s.inserted && u.failedAt == s.failedAt
    ensures u.log == if appended || ok then s.log + [s.table[id].event] else s.log
    ensures u.table == s.table[id := s.table[id].(lockedBy := Some(owner), lockedUntil := Some(s.now + leaseMs))]
    ensures var items := [Item(id, s.table[id].event, s.table[id].attempts)];
      u.batches == s.batches[owner := Batch(items, if ok then MarkingPublished else MarkingFailed, s.now + leaseMs)]
  {
    var claimed := Step(s, Claim(owner, [id], leaseMs));
    assert claimed.batches[owner].items == [Item(id, s.table[id].event, s.table[id].attempts)];
    u := Step(claimed, On(owner, Publish(appended, ok)));
  }

  /** A pass over a due row that meets no failure puts its event into the log, once, and leaves the
      row PUBLISHED and everything else as it was. */
  lemma DueRowIsPublished<E>(s: State<E>, owner: Owner, id: RowId, leaseMs: nat)
    requires id in s.table && Due(s.table[id], s.now) && owner !in s.batches
    ensures var u, row := Run(s, Pass(owner, id, leaseMs, true, true)), s.table[id];
      && u.log == s.log + [row.event] && u.batches == s.batches && u.inserted == s.inserted
      && u.table == s.table[id := row.(status := Published, publishedAt := Some(s.now),
                                       lockedBy := None, lockedUntil := None)]
  {
    var u := BeforeMark(s, owner, id, leaseMs, true, true);
  }

  lemma FailedAfterLease<E>(table: map<RowId, Row<E>>, id: RowId, leased: Row<E>, now: Time)
    requires id in table && leased == table[id].(lockedBy := leased.lockedBy, lockedUntil := leased.lockedUntil)
    ensures var attempts := table[id].attempts + 1;
      table[id := leased][id := FailedRow(leased, attempts, now)]
      == table[id := table[id].(status := Failed, attempts := attempts,
                                nextAttemptAt := Some(now + RetryDelayMs(attempts)),
                                lockedBy := None, lockedUntil := None)]
  {
  }

  lemma LastIsMarkedFailed<E>(s: State<E>, owner: Owner, item: Item<E>) returns (t: State<E>)
    requires owner in s.batches && s.batches[owner].items == [item] && s.batches[owner].phase == MarkingFailed
    requires item.id in s.table
    ensures t == Step(s, On(owner, MarkFailed(NoFault)))
    ensures t.log == s.log && t.batches == s.batches - {owner} && FailuresOf(t, item.id) == FailuresOf(s, item.id) + 1
    ensures t.table == s.table[item.id := FailedRow(s.table[item.id], item.attempts + 1, s.now)]
  {
    t := Step(s, On(owner, MarkFailed(NoFault)));
  }

  /** A publish that fails leaves the row FAILED, with one attempt more and its next one after the
      delay for that number, whether the broker took the event or not. */
  lemma FailedPublishWaits<E>(s: State<E>, owner: Owner, id: RowId, leaseMs: nat, appended: bool)
    requires id in s.table && Due(s.table[id], s.now) && owner !in s.batches
    ensures var u, row := Run(s, Pass(owner, id, leaseMs, appended, false)), s.table[id];
      && u.log == (if appended then s.log + [row.event] else s.log) && u.batches == s.batches
      && u.table == s.table[id := row.(status := Failed, attempts := row.attempts + 1,
                                       nextAttemptAt := Some(s.now + RetryDelayMs(row.attempts + 1)),
                                       lockedBy := None, lockedUntil := None)]
      && FailuresOf(u, id) == FailuresOf(s, id) + 1
  {
    var u := BeforeMark(s, owner, id, leaseMs, appended, false);
    var t := LastIsMarkedFailed(u, owner, Item(id, s.table[id].event, s.table[id].attempts));
    FailedAfterLease(s.table, id, Leased(s.table[id], owner, s.now + leaseMs), s.now);
    assert t.batches == s.batches;
  }

  // --------------------------------------------------------------------------- backoff

  /** A FAILED row that an administrator retried has no backoff left. */
  ghost predicate Lifted<E>(s: State<E>, id: RowId) {
    id in s.table && s.table[id].status == Failed && id !in s.failedAt ==> s.table[id].nextAttemptAt.None?
  }

  lemma StepKeepsLifted<E>(s: State<E>, a: Action<E>, id: RowId)
    requires Lifted(s, id)
    ensures Lifted(Step(s, a), id)
  {
    if a.On? && a.owner in s.batches {
      StepOnKeepsLifted(s, a.owner, a.op, id);
    }
  }

  lemma StepOnKeepsLifted<E>(s: State<E>, owner: Owner, op: Op, id: RowId)
    requires Lifted(s, id) && owner in s.batches
    ensures Lifted(StepOn(s, owner, op), id)
  {
  }

  lemma {:induction false} RunKeepsLifted<E>(acts: seq<Action<E>>, id: RowId)
    ensures Lifted(Run(Init(), acts), id)
  {
    if acts != [] {
      RunKeepsLifted(acts[..|acts| - 1], id);
      StepKeepsLifted(Run(Init(), acts[..|acts| - 1]), acts[|acts| - 1], id);
    }
  }

  /** A FAILED row nobody holds is due from the end of its backoff on, counted from its last
      failure, and at once if an administrator lifted it. */
  lemma FailedRowIsDueExactlyWhen<E>(acts: seq<Action<E>>, id: RowId)
    requires var s := Run(Init(), acts);
      && id in s.table && s.table[id].status == Failed
      && (s.table[id].lockedUntil.Some? ==> s.table[id].lockedUntil.value <= s.now)
    ensures var s := Run(Init(), acts);
      Due(s.table[id], s.now)
      <==> (id in s.failedAt ==> s.failedAt[id] + RetryDelayMs(s.table[id].attempts) <= s.now)
  {
    RunKeepsSafe(acts);
    RunKeepsLifted(acts, id);
  }

  /** Retry makes exactly the chosen FAILED rows due, whatever backoff or lease they had. */
  lemma RetriedRowIsDue<E>(s: State<E>, ids: set<RowId>)
    ensures var s' := Step(s, Retry(ids));
      && s'.table.Keys == s.table.Keys && s'.log == s.log && s'.batches == s.batches
      && forall id :: id in s.table ==>
           if id in ids && s.table[id].status == Failed
           then
             && Due(s'.table[id], s'.now)
             && s'.table[id].status == Failed && s'.table[id].attempts == s.table[id].attempts
           else s'.table[id] == s.table[id]
  {
  }

  /** Ignore takes exactly a PENDING or FAILED row out of delivery, and no other row. */
  lemma IgnoredRowIsNeverDue<E>(s: State<E>, id: RowId, later: Time)
    requires id in s.table
    ensures var s' := Step(s, Ignore(id));
      && s'.table.Keys == s.table.Keys && s'.log == s.log
      && (forall other :: other in s.table && other != id ==> s'.table[other] == s.table[other])
      && (s.table[id].status in {Pending, Failed} ==> s'.table[id].status == OutboxMachine.Ignored)
      && (s.table[id].status !in {Pending, Failed} ==> s' == s)
      && !Due(s'.table[id], later)
  {
  }

  /** After any run at all, an event that was neither published nor ignored reaches the log with
      the first undisturbed pass after its backoff and its lease. */
  lemma EveryEventCanBePublished<E>(acts: seq<Action<E>>, to: Time, owner: Owner, id: RowId, leaseMs: nat)
    requires var s := Run(Init(), acts);
      && s.now <= to && owner !in s.batches
      && id in s.table && s.table[id].status in {Pending, Failed}
      && (s.table[id].nextAttemptAt.Some? ==> s.table[id].nextAttemptAt.value <= to)
      && (s.table[id].lockedUntil.Some? ==> s.table[id].lockedUntil.value <= to)
    ensures var u := Run(Run(Init(), acts + [Tick(to)]), Pass(owner, id, leaseMs, true, true));
      && id in u.inserted && u.inserted[id] in u.log
      && id in u.table && u.table[id].status == Published
  {
    RunStep(Init(), acts, Tick(to));
    RunKeepsSafe(acts);
    var s: State<E> := Run(Init(), acts + [Tick(to)]);
    assert RowSafe(Run(Init(), acts), id);
    DueRowIsPublished(s, owner, id, leaseMs);
  }
}
