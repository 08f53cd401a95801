/** `publishOutboxBatch` of packages/outbox/src/outbox-publisher.service.ts over the
    store of packages/outbox/src/postgres-outbox.store.ts. */
module OutboxPublisher {
  import opened Common
  import opened OutboxMachine

  /** How the awaits for one item of the batch end. */
  datatype Reply = Reply(appended: bool, ok: bool, published: Fault, failed: Fault)

  class PostgresOutboxStore<E(==)> {
    var now: Time
    var table: map<RowId, Row<E>>

    constructor ()
      ensures table == map[]
    {
      now, table := 0, map[];
    }

    /** Leases the rows the query picked and returns them. */
    method FindPublishable(picked: seq<RowId>, owner: Owner, leaseMs: nat) returns (items: seq<Item<E>>)
      requires forall id :: id in picked ==> id in table && Publishable(table[id], now)
      modifies this`table
      ensures items == ItemsOf(old(table), picked)
      ensures table == LeaseAll(old(table), picked, owner, now + leaseMs)
    {
      items := ItemsOf(table, picked);
      table := LeaseAll(table, picked, owner, now + leaseMs);
    }

    /** By id only: neither the status nor the owner of the lease is looked at. */
    method MarkPublishedById(id: RowId)
      modifies this`table
      ensures table == if id in old(table) then old(table)[id := PublishedRow(old(table)[id], now)] else old(table)
    {
      if id in table {
        table := table[id := PublishedRow(table[id], now)];
      }
    }

    method MarkFailedById(id: RowId, attempts: nat)
      modifies this`table
      ensures table ==
              if id in old(table) then old(table)[id := FailedRow(old(table)[id], attempts, now)] else old(table)
    {
      if id in table {
        table := table[id := FailedRow(table[id], attempts, now)];
      }
    }
  }

  /** An action of another publisher, of an administrator or of a business transaction. */
  predicate Foreign<E>(a: Action<E>, owner: Owner) {
    !((a.On? || a.Claim?) && a.owner == owner)
  }

  /** What the publisher itself did, in order. */
  function Own<E(==)>(acts: seq<Action<E>>, owner: Owner): seq<Action<E>> {
    if acts == [] then []
    else
      var last := acts[|acts| - 1];
      Own(acts[..|acts| - 1], owner) + if Foreign(last, owner) then [] else [last]
  }

  /** The awaits of one turn of the loop: the publish, the mark if it succeeded, and the failure's
      mark if either of them threw. */
  function TurnWith<E>(owner: Owner, r: Reply): seq<Action<E>> {
    [On(owner, Publish(r.appended, r.ok))]
    + (if r.ok then [On(owner, MarkPublished(r.published))] else [])
    + if r.ok && r.published.NoFault? then [] else [On(owner, MarkFailed(r.failed))]
  }

  function TurnsWith<E>(owner: Owner, replies: nat -> Reply, n: nat): seq<Action<E>> {
    if n == 0 then [] else TurnsWith(owner, replies, n - 1) + TurnWith(owner, replies(n - 1))
  }

  lemma AdvanceLeavesOthers<E>(s: State<E>, o: Owner, owner: Owner)
    requires o in s.batches && s.batches[o].items != [] && o != owner
    ensures owner in s.batches <==> owner in Advance(s, o).batches
    ensures owner in s.batches ==> Advance(s, o).batches[owner] == s.batches[owner]
  {
  }

  lemma OnLeavesOthers<E>(s: State<E>, o: Owner, op: Op, owner: Owner)
    requires o in s.batches && o != owner
    ensures owner in s.batches <==> owner in StepOn(s, o, op).batches
    ensures owner in s.batches ==> StepOn(s, o, op).batches[owner] == s.batches[owner]
  {
    var b := s.batches[o];
    if !op.Crash? && b.items != [] {
      var id := b.items[0].id;
      match op
      case MarkPublished(fault) =>
        var marked := if fault.LostBefore? || id !in s.table then s.table
                      else s.table[id := PublishedRow(s.table[id], s.now)];
        AdvanceLeavesOthers(s.(table := marked), o, owner);
      case MarkFailed(fault) =>
        AdvanceLeavesOthers(if id in s.table then RecordFailure(s, b.items[0]) else s, o, owner);
        AdvanceLeavesOthers(s, o, owner);
      case _ =>
    }
  }

  lemma ForeignLeaves<E>(s: State<E>, a: Action<E>, owner: Owner)
    requires Foreign(a, owner)
    ensures owner in s.batches <==> owner in Step(s, a).batches
    ensures owner in s.batches ==> Step(s, a).batches[owner] == s.batches[owner]
  {
    if a.On? && a.owner in s.batches {
      OnLeavesOthers(s, a.owner, a.op, owner);
    }
  }

  /** Where the pass stands after each of the three awaits. */
  ghost predicate TurnedPage<E>(b: Batch<E>, s: State<E>, owner: Owner)
    requires b.items != []
  {
    if |b.items| == 1 then owner !in s.batches
    else owner in s.batches && s.batches[owner] == b.(items := b.items[1..], phase := Publishing)
  }

  lemma ClaimTurns<E>(s: State<E>, owner: Owner, picked: seq<RowId>, leaseMs: nat)
    requires Claimable(s, owner, picked)
    ensures var s' := Step(s, Claim(owner, picked, leaseMs));
      if picked == [] then owner !in s'.batches
      else
        && owner in s'.batches && s'.batches[owner].phase == Publishing
        && s'.batches[owner].items == ItemsOf(s.table, picked)
  {
  }

  /** Rows stay leased to a publisher that does not know of it. */
  function Leaked<E>(s: State<E>, picked: seq<RowId>, owner: Owner, leaseMs: nat): State<E> {
    s.(table := LeaseAll(s.table, picked, owner, s.now + leaseMs))
  }

  /** The publisher never learns of a claim whose reply was lost: the rows stay leased. */
  lemma LostClaim<E>(s: State<E>, owner: Owner, picked: seq<RowId>, leaseMs: nat)
    requires Claimable(s, owner, picked)
    ensures var t := Step(Step(s, Claim(owner, picked, leaseMs)), On(owner, Crash));
      && owner !in t.batches
      && (picked != [] ==> t == s.(table := LeaseAll(s.table, picked, owner, s.now + leaseMs)))
  {
    var t := Step(Step(s, Claim(owner, picked, leaseMs)), On(owner, Crash));
    if picked != [] {
      assert t.batches == s.batches;
    }
  }

  lemma NextPage<T>(items: seq<T>, n: nat)
    requires n < |items|
    ensures items[n..] != [] && items[n..][0] == items[n] && items[n..][1..] == items[n + 1..]
  {
  }

  lemma PublishTurns<E>(s: State<E>, owner: Owner, appended: bool, ok: bool)
    requires owner in s.batches && s.batches[owner].items != [] && s.batches[owner].phase == Publishing
    ensures var s' := Step(s, On(owner, Publish(appended, ok)));
      && owner in s'.batches
      && s'.batches[owner] == s.batches[owner].(phase := if ok then MarkingPublished else MarkingFailed)
      && (ok ==> s.batches[owner].items[0].event in s'.log)
  {
  }

  lemma MarkPublishedTurns<E>(s: State<E>, owner: Owner, fault: Fault)
    requires owner in s.batches && s.batches[owner].items != [] && s.batches[owner].phase == MarkingPublished
    ensures var s' := Step(s, On(owner, MarkPublished(fault)));
      if fault.NoFault? then TurnedPage(s.batches[owner], s', owner)
      else owner in s'.batches && s'.batches[owner] == s.batches[owner].(phase := MarkingFailed)
  {
  }

  lemma MarkFailedTurns<E>(s: State<E>, owner: Owner, fault: Fault)
    requires owner in s.batches && s.batches[owner].items != [] && s.batches[owner].phase == MarkingFailed
    ensures TurnedPage(s.batches[owner], Step(s, On(owner, MarkFailed(fault))), owner)
  {
  }

  lemma LogGrows<E>(s: State<E>, a: Action<E>)
    ensures s.log <= Step(s, a).log
  {
  }

  class OutboxPublisherService<E(==)> {
    var world: State<E>
    ghost var past: seq<Action<E>>
    var isPublishing: bool
    const owner: Owner

    ghost predicate Valid()
      reads this
    {
      world == Run(Init(), past) && (isPublishing || owner !in world.batches)
    }

    constructor (owner: Owner)
      ensures Valid() && past == [] && !isPublishing && this.owner == owner
    {
      this.owner := owner;
      world := Init();
      past := [];
      isPublishing := false;
    }

    method Do(a: Action<E>)
      requires world == Run(Init(), past)
      modifies this`world, this`past
      ensures world == Run(Init(), past) == Step(old(world), a) && past == old(past) + [a]
      ensures Own(past, owner) == Own(old(past), owner) + if Foreign(a, owner) then [] else [a]
      ensures old(world).log <= world.log
    {
      RunStep(Init(), past, a);
      LogGrows(world, a);
      world := Step(world, a);
      past := past + [a];
      assert past[..|past| - 1] == old(past);
    }

    method Others(acts: seq<Action<E>>)
      requires world == Run(Init(), past)
      requires forall a :: a in acts ==> Foreign(a, owner)
      modifies this`world, this`past
      ensures world == Run(Init(), past) && old(past) <= past && Own(past, owner) == Own(old(past), owner)
      ensures old(world).log <= world.log
      ensures owner in old(world).batches <==> owner in world.batches
      ensures owner in world.batches ==> world.batches[owner] == old(world).batches[owner]
    {
      for i := 0 to |acts|
        invariant world == Run(Init(), past) && old(past) <= past && Own(past, owner) == Own(old(past), owner)
        invariant old(world).log <= world.log
        invariant owner in old(world).batches <==> owner in world.batches
        invariant owner in world.batches ==> world.batches[owner] == old(world).batches[owner]
      {
        assert acts[i] in acts;
        ForeignLeaves(world, acts[i], owner);
        Do(acts[i]);
      }
    }

    /** The try block; `failed` if one of its awaits throws. */
    method TryPublish(r: Reply, others: nat -> seq<Action<E>>) returns (failed: bool)
      requires world == Run(Init(), past)
      requires forall i, a :: a in others(i) ==> Foreign(a, owner)
      requires owner in world.batches && world.batches[owner].items != [] && world.batches[owner].phase == Publishing
      modifies this`world, this`past
      ensures world == Run(Init(), past) && old(past) <= past
      ensures Own(past, owner) == Own(old(past), owner) + [On(owner, Publish(r.appended, r.ok))]
                                  + if r.ok then [On(owner, MarkPublished(r.published))] else []
      ensures old(world).log <= world.log
      ensures r.ok ==> old(world).batches[owner].items[0].event in world.log
      ensures failed <==> !r.ok || !r.published.NoFault?
      ensures failed ==> owner in world.batches
      ensures failed ==> world.batches[owner] == old(world).batches[owner].(phase := MarkingFailed)
      ensures !failed ==> TurnedPage(old(world).batches[owner], world, owner)
    {
      Others(others(0));
      PublishTurns(world, owner, r.appended, r.ok);
      Do(On(owner, Publish(r.appended, r.ok)));
      if !r.ok {
        return true;
      }
      Others(others(1));
      MarkPublishedTurns(world, owner, r.published);
      Do(On(owner, MarkPublished(r.published)));
      failed := !r.published.NoFault?;
    }

    /** One turn of the loop: publish, mark published, and on an error of either mark
        failed. However it ends, the pass turns to the next item. */
    method PublishOne(r: Reply, others: nat -> seq<Action<E>>)
      requires world == Run(Init(), past)
      requires forall i, a :: a in others(i) ==> Foreign(a, owner)
      requires owner in world.batches && world.batches[owner].items != [] && world.batches[owner].phase == Publishing
      modifies this`world, this`past
      ensures world == Run(Init(), past) && old(past) <= past
      ensures Own(past, owner) == Own(old(past), owner) + TurnWith(owner, r)
      ensures old(world).log <= world.log
      ensures r.ok ==> old(world).batches[owner].items[0].event in world.log
      ensures TurnedPage(old(world).batches[owner], world, owner)
    {
      var failed := TryPublish(r, others);
      if failed {
        Others(others(2));
        MarkFailedTurns(world, owner, r.failed);
        Do(On(owner, MarkFailed(r.failed)));
      }
    }

    /** The loop over the batch this publisher holds. */
    method PublishItems(items: seq<Item<E>>, replies: nat -> Reply, others: (nat, nat) -> seq<Action<E>>)
      requires world == Run(Init(), past)
      requires forall i, j, a :: a in others(i, j) ==> Foreign(a, owner)
      requires if items == [] then owner !in world.batches
               else
                 && owner in world.batches && world.batches[owner].phase == Publishing
                 && world.batches[owner].items == items
      modifies this`world, this`past
      ensures world == Run(Init(), past) && owner !in world.batches
      ensures old(past) <= past && Own(past, owner) == Own(old(past), owner) + TurnsWith(owner, replies, |items|)
      ensures forall k :: 0 <= k < |items| && replies(k).ok ==> items[k].event in world.log
    {
      for n := 0 to |items|
        invariant world == Run(Init(), past) && old(past) <= past
        invariant Own(past, owner) == Own(old(past), owner) + TurnsWith(owner, replies, n)
        invariant n < |items| ==> owner in world.batches && world.batches[owner].phase == Publishing
        invariant n < |items| ==> world.batches[owner].items == items[n..]
        invariant n == |items| ==> owner !in world.batches
        invariant forall k :: 0 <= k < n && replies(k).ok ==> items[k].event in world.log
      {
        NextPage(items, n);
        PublishOne(replies(n), (i: nat) => others(n, i));
      }
    }

    /** `findPublishable` throws: its update was lost, or only its reply. */
    method FailToClaim(picked: seq<RowId>, leaseMs: nat, committed: bool)
      requires world == Run(Init(), past) && Claimable(world, owner, picked)
      modifies this`world, this`past
      ensures world == Run(Init(), past) && old(past) <= past && owner !in world.batches
      ensures !committed ==> world == old(world)
      ensures committed && picked != [] ==>
                world == Leaked(old(world), picked, owner, leaseMs)
    {
      if committed {
        LostClaim(world, owner, picked, leaseMs);
        Do(Claim(owner, picked, leaseMs));
        Do(On(owner, Crash));
      }
    }

    /** The claim and the loop over what it got. */
    method PublishClaimed(picked: seq<RowId>, leaseMs: nat, replies: nat -> Reply,
                          others: (nat, nat) -> seq<Action<E>>)
      requires world == Run(Init(), past) && Claimable(world, owner, picked)
      requires forall i, j, a :: a in others(i, j) ==> Foreign(a, owner)
      modifies this`world, this`past
      ensures world == Run(Init(), past) && owner !in world.batches
      ensures old(past) <= past
      ensures Own(past, owner) == Own(old(past), owner) + [Claim(owner, picked, leaseMs)]
                                  + TurnsWith(owner, replies, |picked|)
      ensures forall k :: 0 <= k < |picked| && replies(k).ok ==> old(world).table[picked[k]].event in world.log
    {
      var items := ItemsOf(world.table, picked);
      ClaimTurns(world, owner, picked, leaseMs);
      Do(Claim(owner, picked, leaseMs));
      PublishItems(items, replies, others);
    }

    /** One pass. A failing row does not keep later rows from being published; only an error of
        the claim itself ends the pass. In every case the reentrancy flag is down again. */
    method PublishOutboxBatch(picked: seq<RowId>, leaseMs: nat, claim: Fault, replies: nat -> Reply,
                              others: (nat, nat) -> seq<Action<E>>) returns (threw: bool)
      requires Valid()
      requires forall i, j, a :: a in others(i, j) ==> Foreign(a, owner)
      requires !isPublishing ==> Claimable(world, owner, picked)
      modifies this
      ensures Valid() && isPublishing == old(isPublishing)
      ensures old(past) <= past
      ensures old(isPublishing) ==> world == old(world) && past == old(past)
      ensures !old(isPublishing) && !threw ==>
                Own(past, owner) == Own(old(past), owner) + [Claim(owner, picked, leaseMs)]
                                    + TurnsWith(owner, replies, |picked|)
      ensures threw <==> !old(isPublishing) && !claim.NoFault?
      ensures threw && claim.LostBefore? ==> world == old(world)
      ensures threw && claim.LostAfter? && picked != [] ==>
                world == Leaked(old(world), picked, owner, leaseMs)
      ensures !old(isPublishing) && !threw ==>
                forall k :: 0 <= k < |picked| && replies(k).ok ==> old(world).table[picked[k]].event in world.log
    {
      if isPublishing {
        return false;
      }
      isPublishing := true;
      if !claim.NoFault? {
        FailToClaim(picked, leaseMs, claim.LostAfter?);
        isPublishing := false;
        return true;
      }
      PublishClaimed(picked, leaseMs, replies, others);
      isPublishing := false;
      threw := false;
    }
  }

  // ------------------------------------------------------- the store is the machine's table

  /** The three statements of the store do to the table what the steps of the machine do. */
  lemma StatementsAreSteps<E>(s: State<E>, owner: Owner)
    ensures forall picked: seq<RowId> :: Claimable(s, owner, picked) <==>
              && owner !in s.batches && NoDup(picked)
              && forall id :: id in picked ==>
                   && id in s.table
                   && (|| s.table[id].status == Pending
                       || (&& s.table[id].status == Failed
                           && (s.table[id].nextAttemptAt.None? || s.table[id].nextAttemptAt.value <= s.now)))
                   && (s.table[id].lockedUntil.None? || s.table[id].lockedUntil.value <= s.now)
    ensures forall picked, leaseMs: nat :: Claimable(s, owner, picked) ==>
              Step(s, Claim(owner, picked, leaseMs)).table == LeaseAll(s.table, picked, owner, s.now + leaseMs)
    ensures owner in s.batches && s.batches[owner].items != [] && s.batches[owner].phase == MarkingPublished ==>
              var id := s.batches[owner].items[0].id;
              Step(s, On(owner, MarkPublished(NoFault))).table
                == if id in s.table then s.table[id := PublishedRow(s.table[id], s.now)] else s.table
    ensures owner in s.batches && s.batches[owner].items != [] && s.batches[owner].phase == MarkingFailed ==>
              var item := s.batches[owner].items[0];
              Step(s, On(owner, MarkFailed(NoFault))).table
                == if item.id !in s.table then s.table
                   else s.table[item.id := FailedRow(s.table[item.id], item.attempts + 1, s.now)]
  {
    assert LeaseAll(s.table, [], owner, s.now) == s.table;
    forall picked, leaseMs: nat | Claimable(s, owner, picked)
      ensures Step(s, Claim(owner, picked, leaseMs)).table == LeaseAll(s.table, picked, owner, s.now + leaseMs)
    {
      if picked == [] {
        assert LeaseAll(s.table, picked, owner, s.now + leaseMs) == s.table;
      }
    }
  }

  lemma SameLog<E>(s: State<E>, owner: Owner, op: Op)
    ensures !op.Publish? ==> Step(s, On(owner, op)).log == s.log
    ensures op.Publish? && owner in s.batches && s.batches[owner].items != [] && s.batches[owner].phase == Publishing
      ==> var s', event := Step(s, On(owner, op)), s.batches[owner].items[0].event;
          && s'.log == (if op.appended || op.ok then s.log + [event] else s.log)
          && s'.table == s.table && s'.now == s.now
    ensures Step(s, On(owner, op)).now == s.now
  {
  }

  function MarkedTable<E>(table: map<RowId, Row<E>>, item: Item<E>, ok: bool, now: Time): map<RowId, Row<E>> {
    if item.id !in table then table
    else
      var row := table[item.id];
      table[item.id := if ok then PublishedRow(row, now) else FailedRow(row, item.attempts + 1, now)]
  }

  method MarkItem<E(==)>(store: PostgresOutboxStore<E>, item: Item<E>, ok: bool)
    modifies store
    ensures store.table == MarkedTable(old(store.table), item, ok, store.now) && store.now == old(store.now)
  {
    if ok {
      store.MarkPublishedById(item.id);
    } else {
      store.MarkFailedById(item.id, item.attempts + 1);
    }
  }

  /** The actions of a turn without faults: the publish, then the mark that its outcome calls for. */
  function TurnOf<E>(owner: Owner, r: Reply): seq<Action<E>> {
    [On(owner, Publish(r.appended, r.ok)), On(owner, if r.ok then MarkPublished(NoFault) else MarkFailed(NoFault))]
  }

  function Turns<E>(owner: Owner, replies: nat -> Reply, n: nat): seq<Action<E>> {
    if n == 0 then [] else Turns(owner, replies, n - 1) + TurnOf(owner, replies(n - 1))
  }

  /** The claim and the first `n` turns. */
  function PassOf<E>(owner: Owner, picked: seq<RowId>, leaseMs: nat, replies: nat -> Reply, n: nat): seq<Action<E>> {
    [Claim(owner, picked, leaseMs)] + Turns(owner, replies, n)
  }

  lemma TurnOfPass<E>(s0: State<E>, s: State<E>, owner: Owner, picked: seq<RowId>, leaseMs: nat,
                      replies: nat -> Reply, n: nat) returns (t: State<E>)
    requires s == Run(s0, PassOf(owner, picked, leaseMs, replies, n))
    requires owner in s.batches && s.batches[owner].items != [] && s.batches[owner].phase == Publishing
    ensures t == Run(s0, PassOf(owner, picked, leaseMs, replies, n + 1))
    ensures var item, r := s.batches[owner].items[0], replies(n);
      && t.now == s.now
      && t.log == (if r.appended || r.ok then s.log + [item.event] else s.log)
      && t.table == MarkedTable(s.table, item, r.ok, s.now)
    ensures TurnedPage(s.batches[owner], t, owner)
  {
    var acts: seq<Action<E>> := PassOf(owner, picked, leaseMs, replies, n);
    t := TurnAlone(s0, acts, s, owner, replies(n));
    assert PassOf(owner, picked, leaseMs, replies, n + 1) == acts + TurnOf(owner, replies(n));
  }

  /** One row without faults. */
  lemma TurnAlone<E>(s0: State<E>, acts: seq<Action<E>>, s: State<E>, owner: Owner, r: Reply)
    returns (t: State<E>)
    requires s == Run(s0, acts)
    requires owner in s.batches && s.batches[owner].items != [] && s.batches[owner].phase == Publishing
    ensures t == Run(s0, acts + TurnOf(owner, r))
    ensures var item := s.batches[owner].items[0];
      && t.now == s.now
      && t.log == (if r.appended || r.ok then s.log + [item.event] else s.log)
      && t.table == MarkedTable(s.table, item, r.ok, s.now)
    ensures TurnedPage(s.batches[owner], t, owner)
  {
    var publish: Action<E> := On(owner, Publish(r.appended, r.ok));
    var mark: Action<E> := On(owner, if r.ok then MarkPublished(NoFault) else MarkFailed(NoFault));
    PublishTurns(s, owner, r.appended, r.ok);
    SameLog(s, owner, publish.op);
    RunStep(s0, acts, publish);
    var mid := Step(s, publish);
    t := MarkAlone(s0, acts + [publish], mid, owner, mark);
    assert acts + TurnOf(owner, r) == acts + [publish] + [mark];
  }

  lemma MarkAlone<E>(s0: State<E>, acts: seq<Action<E>>, s: State<E>, owner: Owner, mark: Action<E>)
    returns (t: State<E>)
    requires s == Run(s0, acts) && owner in s.batches && s.batches[owner].items != []
    requires (mark == On(owner, MarkPublished(NoFault)) && s.batches[owner].phase == MarkingPublished)
          || (mark == On(owner, MarkFailed(NoFault)) && s.batches[owner].phase == MarkingFailed)
    ensures t == Run(s0, acts + [mark]) && t.now == s.now && t.log == s.log
    ensures var item := s.batches[owner].items[0];
      t.table == MarkedTable(s.table, item, mark.op.MarkPublished?, s.now)
    ensures TurnedPage(s.batches[owner], t, owner)
  {
    StatementsAreSteps(s, owner);
    SameLog(s, owner, mark.op);
    RunStep(s0, acts, mark);
    if mark.op.MarkPublished? {
      MarkPublishedTurns(s, owner, NoFault);
    } else {
      MarkFailedTurns(s, owner, NoFault);
    }
    t := Step(s, mark);
  }

  /** The events of the first `n` rows that reached the broker, in order. */
  function SentBy<E>(items: seq<Item<E>>, replies: nat -> Reply, n: nat): seq<E>
    requires n <= |items|
  {
    if n == 0 then []
    else
      var r := replies(n - 1);
      SentBy(items, replies, n - 1) + if r.appended || r.ok then [items[n - 1].event] else []
  }

  lemma {:induction false} AcknowledgedIsSent<E>(items: seq<Item<E>>, replies: nat -> Reply, n: nat, k: nat)
    requires k < n <= |items| && replies(k).ok
    ensures items[k].event in SentBy(items, replies, n)
  {
    if k == n - 1 {
      assert SentBy(items, replies, n)[|SentBy(items, replies, n)| - 1] == items[k].event;
    } else {
      AcknowledgedIsSent(items, replies, n - 1, k);
    }
  }

  /** A pass over the store with nobody else at work: it leaves the rows and the log of the
      run of the machine: the claim, then for each row the publish and the mark for its outcome. */
  method PublishAlone<E(==)>(store: PostgresOutboxStore<E>, owner: Owner, picked: seq<RowId>, leaseMs: nat,
                             replies: nat -> Reply, ghost s: State<E>)
    returns (sent: seq<E>)
    requires store.table == s.table && store.now == s.now && Claimable(s, owner, picked)
    modifies store
    ensures var t := Run(s, PassOf(owner, picked, leaseMs, replies, |picked|));
      store.table == t.table && s.log + sent == t.log && owner !in t.batches
    ensures sent == SentBy(ItemsOf(s.table, picked), replies, |picked|)
    ensures forall k :: 0 <= k < |picked| && replies(k).ok ==> s.table[picked[k]].event in sent
  {
    var items := store.FindPublishable(picked, owner, leaseMs);
    sent := [];
    for n := 0 to |items|
      invariant store.table == MarkedAll(LeaseAll(s.table, picked, owner, s.now + leaseMs), items, replies, n, s.now)
      invariant store.now == s.now && sent == SentBy(items, replies, n)
    {
      var item, r := items[n], replies(n);
      if r.appended || r.ok {
        sent := sent + [item.event];
      }
      MarkItem(store, item, r.ok);
    }
    PassIs(s, owner, picked, leaseMs, replies, |picked|);
    forall k | 0 <= k < |picked| && replies(k).ok ensures items[k].event in sent {
      AcknowledgedIsSent(items, replies, |items|, k);
    }
  }

  /** The table after the marks of the first `n` rows. */
  function MarkedAll<E>(table: map<RowId, Row<E>>, items: seq<Item<E>>, replies: nat -> Reply, n: nat, now: Time)
    : map<RowId, Row<E>>
    requires n <= |items|
  {
    if n == 0 then table
    else MarkedTable(MarkedAll(table, items, replies, n - 1, now), items[n - 1], replies(n - 1).ok, now)
  }

  /** The machine in a pass over `items` that has made `n` turns since state `s`. */
  ghost predicate AtTurn<E>(s: State<E>, t: State<E>, owner: Owner, leased: map<RowId, Row<E>>, items: seq<Item<E>>,
                            replies: nat -> Reply, n: nat)
    requires n <= |items|
  {
    && t.now == s.now && t.log == s.log + SentBy(items, replies, n)
    && t.table == MarkedAll(leased, items, replies, n, s.now)
    && if n < |items| then
         owner in t.batches && t.batches[owner].phase == Publishing && t.batches[owner].items == items[n..]
       else owner !in t.batches
  }

  lemma TurnFollows<E>(s: State<E>, w: State<E>, t: State<E>, owner: Owner, leased: map<RowId, Row<E>>,
                       items: seq<Item<E>>, replies: nat -> Reply, n: nat)
    requires n < |items| && AtTurn(s, w, owner, leased, items, replies, n)
    requires var item, r := items[n], replies(n);
      && t.now == w.now && t.log == (if r.appended || r.ok then w.log + [item.event] else w.log)
      && t.table == MarkedTable(w.table, item, r.ok, w.now) && TurnedPage(w.batches[owner], t, owner)
    ensures AtTurn(s, t, owner, leased, items, replies, n + 1)
  {
    NextPage(items, n);
  }

  /** The same pass in the machine. */
  lemma {:induction false} PassIs<E>(s: State<E>, owner: Owner, picked: seq<RowId>, leaseMs: nat,
                                     replies: nat -> Reply, n: nat)
    requires Claimable(s, owner, picked) && n <= |picked|
    ensures AtTurn(s, Run(s, PassOf(owner, picked, leaseMs, replies, n)), owner,
                   LeaseAll(s.table, picked, owner, s.now + leaseMs), ItemsOf(s.table, picked), replies, n)
  {
    var items, leased := ItemsOf(s.table, picked), LeaseAll(s.table, picked, owner, s.now + leaseMs);
    if n == 0 {
      var t := ClaimAlone(s, owner, picked, leaseMs, replies);
    } else {
      PassIs(s, owner, picked, leaseMs, replies, n - 1);
      NextOfPass(s, owner, picked, leaseMs, replies, n - 1, items, leased);
    }
  }

  lemma NextOfPass<E>(s: State<E>, owner: Owner, picked: seq<RowId>, leaseMs: nat, replies: nat -> Reply, n: nat,
                      items: seq<Item<E>>, leased: map<RowId, Row<E>>)
    requires n < |items|
    requires AtTurn(s, Run(s, PassOf(owner, picked, leaseMs, replies, n)), owner, leased, items, replies, n)
    ensures AtTurn(s, Run(s, PassOf(owner, picked, leaseMs, replies, n + 1)), owner, leased, items, replies, n + 1)
  {
    var w := Run(s, PassOf(owner, picked, leaseMs, replies, n));
    NextPage(items, n);
    var t := TurnOfPass(s, w, owner, picked, leaseMs, replies, n);
    TurnFollows(s, w, t, owner, leased, items, replies, n);
  }

  lemma ClaimAlone<E>(s: State<E>, owner: Owner, picked: seq<RowId>, leaseMs: nat, replies: nat -> Reply)
    returns (t: State<E>)
    requires Claimable(s, owner, picked)
    ensures t == Run(s, PassOf(owner, picked, leaseMs, replies, 0))
    ensures t.now == s.now && t.log == s.log && t.table == LeaseAll(s.table, picked, owner, s.now + leaseMs)
    ensures if picked == [] then owner !in t.batches
            else
              && owner in t.batches && t.batches[owner].phase == Publishing
              && t.batches[owner].items == ItemsOf(s.table, picked)
  {
    StatementsAreSteps(s, owner);
    ClaimTurns(s, owner, picked, leaseMs);
    t := Step(s, Claim(owner, picked, leaseMs));
    var acts: seq<Action<E>> := PassOf(owner, picked, leaseMs, replies, 0);
    assert acts == [Claim(owner, picked, leaseMs)] && acts[..0] == [];
  }
}
