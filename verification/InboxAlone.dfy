/** The inbox processor over its store with nobody else at work: the store's statements are
    the protocol's steps, and the program that issues them is a run of the protocol. */
module InboxAlone {
  import opened Common
  import opened InboxStore
  import opened InboxProtocol
  import opened InboxProcessor

  // ------------------------------------------------------------- what a lone call does

  /** Its row from the moment the effect is due. */
  function AfterEffect<V>(row: Row<V>, result: Option<V>, effectOk: bool, now: Time): (Row<V>, Outcome<V>) {
    if effectOk then (CompletedRow(row, now), Answer(false, result)) else (ReleasedRow(row, now), Threw)
  }

  /** The row and the answer of one undisturbed call. */
  function Alone<V>(row: Option<Row<V>>, t: Token, lease: Time, now: Time, prepared: Option<Option<V>>, effectOk: bool)
    : (Row<V>, Outcome<V>)
  {
    var claimed := RowAfterClaim(row, t, lease, now);
    if row.Some? && row.value.status == Completed then (claimed, Answer(true, claimed.result))
    else if row.Some? && !Acquirable(row.value, now) then (claimed, Threw)
    else if claimed.status == Prepared && claimed.result.Some? then AfterEffect(claimed, claimed.result, effectOk, now)
    else if prepared.None? then (ReleasedRow(claimed, now), Threw)
    else if claimed.status == Prepared then AfterEffect(claimed, prepared.value, effectOk, now)
    else AfterEffect(SavedRow(claimed, prepared.value), prepared.value, effectOk, now)
  }

  /** `process` over the store. No statement fails, so every guard of the store holds. */
  method ProcessAlone<V(==)>(store: PostgresKafkaInboxStore<V>, k: Key, t: Token, lease: Time, now: Time,
                             prepared: Option<Option<V>>, effectOk: bool)
    returns (r: Outcome<V>)
    modifies store
    ensures store.rows == old(store.rows)[k := Alone(Lookup(old(store.rows), k), t, lease, now, prepared, effectOk).0]
    ensures r == Alone(Lookup(old(store.rows), k), t, lease, now, prepared, effectOk).1
  {
    var record := store.Claim(k, t, lease, now);
    if record.status == Completed {
      return Answer(true, record.result);
    }
    if record.lockToken.None? {
      return Threw;
    }
    var result := record.result;
    if !(record.status == Prepared && record.result.Some?) {
      if prepared.None? {
        store.Release(k, t, now);
        return Threw;
      }
      result := prepared.value;
    }
    if record.status != Prepared {
      var saved := store.SavePrepared(k, t, result);
      assert saved;
    }
    if !effectOk {
      store.Release(k, t, now);
      return Threw;
    }
    var completed := store.MarkCompleted(k, t, now);
    assert completed;
    r := Answer(false, result);
  }

  // ------------------------------------------------------- the same call in the protocol

  /** Every await the call may come to; those it does not come to change nothing. */
  function Awaits<V>(t: Token, lease: Time, prepared: Option<Option<V>>, effectOk: bool): seq<Action<V>> {
    [Insert(t, lease, NoFault), On(t, Update(NoFault)), On(t, Select(NoFault)), On(t, Prepare(prepared)),
     On(t, Save(NoFault)),
     On(t, StartEffect), On(t, EndEffect(effectOk)), On(t, Complete(NoFault)), On(t, Release(NoFault))]
  }

  /** The call stands at `pc` and the row is `row`. */
  ghost predicate Stands<V>(s: State<V>, t: Token, row: Row<V>, pc: Pc<V>, now: Time) {
    && |s.hist| > 0 && s.now == now && s.row == Some(row)
    && t in s.calls && s.calls[t].pc == pc && s.calls[t].epoch == |s.hist| - 1
  }

  /** The effects that resolved for this incarnation of the row. */
  function Resolved<V>(s: State<V>): seq<Effect<V>>
    requires |s.hist| > 0
  {
    s.hist[|s.hist| - 1].finished
  }

  function AndResolved<V>(effects: seq<Effect<V>>, t: Token, pc: Pc<V>): seq<Effect<V>> {
    if pc.Effected? then effects + [Effect(t, pc.result)] else effects
  }

  predicate Owned<V>(row: Row<V>, t: Token) {
    row.lockToken == Some(t)
  }

  function Busy<V>(row: Row<V>): Pc<V> {
    if row.status == Completed then Returned(true, row.result) else Stopped
  }

  /** Insert, update and select are the claim of the store. */
  lemma ClaimAlone<V>(s: State<V>, t: Token, lease: Time) returns (u: State<V>)
    requires |s.hist| > 0 && t !in s.calls
    ensures u == Step(Step(Step(s, Insert(t, lease, NoFault)), On(t, Update(NoFault))), On(t, Select(NoFault)))
    ensures var row := RowAfterClaim(s.row, t, lease, s.now);
      var granted := s.row.None? || Acquirable(s.row.value, s.now);
      Stands(u, t, row, if granted then Granted(row.status, row.result) else Busy(row), s.now)
    ensures Resolved(u) == Resolved(s)
  {
    var s1 := Step(s, Insert(t, lease, NoFault));
    if s.row.Some? {
      assert s1 == s.(calls := s.calls[t := Call(|s.hist| - 1, s.now, lease, Updating)]);
    }
    var s2 := Step(s1, On(t, Update(NoFault)));
    u := Step(s2, On(t, Select(NoFault)));
  }

  lemma Idle<V>(s: State<V>, t: Token, op: Op<V>)
    requires t in s.calls && Over(s.calls[t].pc) && !op.Crash?
    ensures Step(s, On(t, op)) == s
  {
  }

  /** Where the call stands after prepare and save. */
  lemma PrepareAlone<V>(s: State<V>, t: Token, row: Row<V>, now: Time, prepared: Option<Option<V>>)
    returns (u: State<V>)
    requires Stands(s, t, row, Granted(row.status, row.result), now) && Owned(row, t) && row.status != Completed
    ensures u == Step(Step(s, On(t, Prepare(prepared))), On(t, Save(NoFault)))
    ensures if row.status == Prepared && row.result.Some? then Stands(u, t, row, Ready(row.result), now)
            else if prepared.None? then Stands(u, t, row, Releasing, now)
            else if row.status == Prepared then Stands(u, t, row, Ready(prepared.value), now)
            else Stands(u, t, SavedRow(row, prepared.value), Ready(prepared.value), now)
    ensures Resolved(u) == Resolved(s)
  {
    var s1 := Step(s, On(t, Prepare(prepared)));
    u := Step(s1, On(t, Save(NoFault)));
  }

  lemma EffectAlone<V>(s: State<V>, t: Token, row: Row<V>, result: Option<V>, now: Time, ok: bool) returns (u: State<V>)
    requires Stands(s, t, row, Ready(result), now)
    ensures u == Step(Step(s, On(t, StartEffect)), On(t, EndEffect(ok)))
    ensures Stands(u, t, row, if ok then Effected(result) else Releasing, now)
    ensures Resolved(u) == AndResolved(Resolved(s), t, u.calls[t].pc)
  {
    u := Step(Step(s, On(t, StartEffect)), On(t, EndEffect(ok)));
  }

  lemma NoEffect<V>(s: State<V>, t: Token, ok: bool)
    requires t in s.calls && s.calls[t].pc.Releasing?
    ensures Step(Step(s, On(t, StartEffect)), On(t, EndEffect(ok))) == s
  {
  }

  lemma FinishAlone<V>(s: State<V>, t: Token, row: Row<V>, pc: Pc<V>, now: Time) returns (u: State<V>)
    requires Stands(s, t, row, pc, now) && Owned(row, t)
    requires pc.Effected? || pc.Releasing?
    requires if pc.Effected? then row.status == Prepared else row.status != Completed
    ensures u == Step(Step(s, On(t, Complete(NoFault))), On(t, Release(NoFault)))
    ensures if pc.Effected? then Stands(u, t, CompletedRow(row, now), Returned(false, pc.result), now)
            else Stands(u, t, ReleasedRow(row, now), Stopped, now)
    ensures Resolved(u) == Resolved(s)
  {
    u := Step(Step(s, On(t, Complete(NoFault))), On(t, Release(NoFault)));
  }

  /** A first answer comes with one more resolved effect, of its value. */
  function AfterOutcome<V>(effects: seq<Effect<V>>, t: Token, r: Outcome<V>): seq<Effect<V>> {
    if r.Answer? && !r.duplicate then effects + [Effect(t, r.result)] else effects
  }

  /** Prepare, save, effect and the end of a call that was granted the row. */
  lemma TryAlone<V>(s: State<V>, t: Token, row: Row<V>, now: Time, prepared: Option<Option<V>>, ok: bool)
    returns (u: State<V>)
    requires Stands(s, t, row, Granted(row.status, row.result), now) && Owned(row, t) && row.status != Completed
    ensures u == Rest(s, t, prepared, ok)
    ensures var (last, r) := if row.status == Prepared && row.result.Some? then AfterEffect(row, row.result, ok, now)
                             else if prepared.None? then (ReleasedRow(row, now), Threw)
                             else if row.status == Prepared then AfterEffect(row, prepared.value, ok, now)
                             else AfterEffect(SavedRow(row, prepared.value), prepared.value, ok, now);
      Stands(u, t, last, EndOf(r), now) && Resolved(u) == AfterOutcome(Resolved(s), t, r)
  {
    var s1 := PrepareAlone(s, t, row, now, prepared);
    if s1.calls[t].pc.Releasing? {
      NoEffect(s1, t, ok);
      u := FinishAlone(s1, t, row, Releasing, now);
    } else {
      var saved, result := s1.row.value, s1.calls[t].pc.result;
      var s2 := EffectAlone(s1, t, saved, result, now, ok);
      u := FinishAlone(s2, t, saved, if ok then Effected(result) else Releasing, now);
    }
  }

  /** The last six awaits. */
  function Rest<V>(s: State<V>, t: Token, prepared: Option<Option<V>>, ok: bool): State<V> {
    var s1 := Step(Step(s, On(t, Prepare(prepared))), On(t, Save(NoFault)));
    var s2 := Step(Step(s1, On(t, StartEffect)), On(t, EndEffect(ok)));
    Step(Step(s2, On(t, Complete(NoFault))), On(t, Release(NoFault)))
  }

  lemma RestIdle<V>(s: State<V>, t: Token, prepared: Option<Option<V>>, ok: bool)
    requires t in s.calls && Over(s.calls[t].pc)
    ensures Rest(s, t, prepared, ok) == s
  {
    Idle(s, t, Prepare(prepared));
    Idle(s, t, Save(NoFault));
    Idle(s, t, StartEffect);
    Idle(s, t, EndEffect(ok));
    Idle(s, t, Complete(NoFault));
    Idle(s, t, Release(NoFault));
  }

  /** The program counter of a call that ended with this outcome. */
  function EndOf<V>(r: Outcome<V>): Pc<V> {
    match r
    case Answer(duplicate, result) => Returned(duplicate, result)
    case Threw => Stopped
  }

  lemma RunTwo<V>(s: State<V>, acts: seq<Action<V>>, a: Action<V>, b: Action<V>) returns (u: State<V>)
    ensures u == Step(Step(Run(s, acts), a), b) == Run(s, acts + [a] + [b])
  {
    RunStep(s, acts, a);
    RunStep(s, acts + [a], b);
    u := Run(s, acts + [a] + [b]);
  }

  lemma AwaitsRun<V>(s: State<V>, t: Token, lease: Time, prepared: Option<Option<V>>, ok: bool)
    ensures var inserted := Step(s, Insert(t, lease, NoFault));
      Run(s, Awaits(t, lease, prepared, ok))
      == Rest(Step(Step(inserted, On(t, Update(NoFault))), On(t, Select(NoFault))), t, prepared, ok)
  {
    var acts := Awaits(t, lease, prepared, ok);
    var a0: seq<Action<V>> := [];
    RunStep(s, a0, acts[0]);
    var a1 := a0 + [acts[0]];
    var u3 := RunTwo(s, a1, acts[1], acts[2]);
    var a3 := a1 + [acts[1]] + [acts[2]];
    var u5 := RunTwo(s, a3, acts[3], acts[4]);
    var a5 := a3 + [acts[3]] + [acts[4]];
    var u7 := RunTwo(s, a5, acts[5], acts[6]);
    var a7 := a5 + [acts[5]] + [acts[6]];
    var u9 := RunTwo(s, a7, acts[7], acts[8]);
    assert acts == a7 + [acts[7]] + [acts[8]];
  }

  /** The call over the store is a run of the protocol: from a row the protocol knows, the run
      of its awaits leaves the row the store is left with and ends in the same answer. */
  lemma AloneIsARun<V>(s: State<V>, t: Token, lease: Time, prepared: Option<Option<V>>, ok: bool)
    requires Inv(s) && t !in s.calls
    ensures var u := Run(s, Awaits(t, lease, prepared, ok));
      var (row, r) := Alone(s.row, t, lease, s.now, prepared, ok);
      Stands(u, t, row, EndOf(r), s.now) && Resolved(u) == AfterOutcome(Resolved(s), t, r)
  {
    AwaitsRun(s, t, lease, prepared, ok);
    var u := ClaimAlone(s, t, lease);
    var row := RowAfterClaim(s.row, t, lease, s.now);
    if s.row.None? || Acquirable(s.row.value, s.now) {
      var v := TryAlone(u, t, row, s.now, prepared, ok);
    } else {
      RestIdle(u, t, prepared, ok);
    }
  }
}
