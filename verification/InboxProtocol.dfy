/** The prepare/effect protocol of packages/kafka/src/inbox/kafka-idempotent-event-processor.ts,
    run by any number of `process` calls over one inbox row.

    A call is named by its lock token (a fresh UUID per call). Every await is a
    separate action, so calls interleave at each of them; a call may crash, any
    statement may lose its connection before or after it committed, leases may
    end early or late, and retention may purge the row once it is COMPLETED. */
module InboxProtocol {
  import opened Common
  import opened InboxStore

  /** Where a `process` call stands. */
  datatype Pc<+V> =
    | Updating                                     // the insert met a conflict
    | Selecting                                    // the update met no row
    | Granted(status: Status, seen: Option<V>)     // claim returned a lock token
    | Saving(result: Option<V>)                    // prepare() returned, savePrepared is next
    | Ready(result: Option<V>)                     // effect is next
    | InEffect(result: Option<V>)
    | Effected(result: Option<V>)                  // effect resolved, markCompleted is next
    | Releasing                                    // in the catch block
    | Returned(duplicate: bool, answer: Option<V>)
    | Stopped                                      // threw, or the worker crashed

  /** `epoch` counts the incarnations of the row; `txnNow` is the transaction's now(). */
  datatype Call<+V> = Call(epoch: nat, txnNow: Time, lease: Time, pc: Pc<V>)

  datatype Effect<+V> = Effect(token: Token, value: Option<V>)

  /** What happened to one incarnation of the row, in order. */
  datatype History<+V> = History(grants: seq<Token>, saves: seq<Option<V>>, effects: seq<Effect<V>>,
                                 finished: seq<Effect<V>>, completions: seq<Token>)

  datatype State<V> = State(now: Time, row: Option<Row<V>>, calls: map<Token, Call<V>>, hist: seq<History<V>>)

  /** One await of a running call. */
  datatype Op<+V> =
    | Update(fault: Fault)
    | Select(fault: Fault)
    | Prepare(outcome: Option<Option<V>>)   // None: prepare() threw
    | Save(fault: Fault)
    | StartEffect
    | EndEffect(ok: bool)
    | Complete(fault: Fault)
    | Release(fault: Fault)
    | Crash

  datatype Action<+V> =
    | Tick(to: Time)
    | Insert(token: Token, lease: Time, fault: Fault)
    | On(token: Token, op: Op<V>)
    | Purge(cutoff: Time)

  function Init<V>(): State<V> {
    State(0, None, map[], [History([], [], [], [], [])])
  }

  function Epoch<V>(s: State<V>): int { |s.hist| - 1 }

  function Goto<V>(s: State<V>, t: Token, pc: Pc<V>): State<V>
    requires t in s.calls
  {
    s.(calls := s.calls[t := s.calls[t].(pc := pc)])
  }

  /** Commits `row` as the row now leased to call `t`, recording the grant. */
  function Grant<V>(s: State<V>, t: Token, call: Call<V>, row: Row<V>, replied: bool): State<V>
    requires |s.hist| > 0
  {
    var e := |s.hist| - 1;
    s.(row := Some(row),
       calls := s.calls[t := call.(epoch := e, pc := if replied then Granted(row.status, row.result) else Stopped)],
       hist := s.hist[e := s.hist[e].(grants := s.hist[e].grants + [t])])
  }

  function StepInsert<V>(s: State<V>, t: Token, lease: Time, fault: Fault): State<V>
    requires |s.hist| > 0
  {
    var call := Call(|s.hist| - 1, s.now, lease, Updating);
    if t in s.calls then s
    else if fault.LostBefore? then s.(calls := s.calls[t := call.(epoch := 0, pc := Stopped)])
    else if s.row.None? then Grant(s, t, call, InsertedRow(t, lease), fault.NoFault?)
    else s.(calls := s.calls[t := if fault.NoFault? then call else call.(pc := Stopped)])
  }

  function StepUpdate<V>(s: State<V>, t: Token, fault: Fault): State<V>
    requires |s.hist| > 0 && t in s.calls
  {
    var call := s.calls[t];
    if !call.pc.Updating? then s
    else if fault.LostBefore? then Goto(s, t, Stopped)
    else if s.row.Some? && Acquirable(s.row.value, call.txnNow) then
      Grant(s, t, call, AcquiredRow(s.row.value, t, call.lease), fault.NoFault?)
    else Goto(s, t, if fault.NoFault? then Selecting else Stopped)
  }

  function StepSelect<V>(s: State<V>, t: Token, fault: Fault): State<V>
    requires |s.hist| > 0 && t in s.calls
  {
    if !s.calls[t].pc.Selecting? then s
    else if !fault.NoFault? || s.row.None? || s.row.value.status != Completed then Goto(s, t, Stopped)
    else s.(calls := s.calls[t := s.calls[t].(epoch := |s.hist| - 1, pc := Returned(true, s.row.value.result))])
  }

  function StepPrepare<V>(s: State<V>, t: Token, outcome: Option<Option<V>>): State<V>
    requires t in s.calls
  {
    match s.calls[t].pc
    case Granted(status, seen) =>
      if status == Prepared && seen.Some? then Goto(s, t, Ready(seen))
      else if outcome.None? then Goto(s, t, Releasing)
      else Goto(s, t, if status == Prepared then Ready(outcome.value) else Saving(outcome.value))
    case _ => s
  }

  function StepSave<V>(s: State<V>, t: Token, fault: Fault): State<V>
    requires |s.hist| > 0 && t in s.calls
  {
    match s.calls[t].pc
    case Saving(r) =>
      if fault.LostBefore? || !CanSave(s.row, t) then Goto(s, t, Releasing)
      else
        var e := |s.hist| - 1;
        var committed := s.(row := Some(SavedRow(s.row.value, r)),
                            hist := s.hist[e := s.hist[e].(saves := s.hist[e].saves + [r])]);
        Goto(committed, t, if fault.NoFault? then Ready(r) else Releasing)
    case _ => s
  }

  function StepStartEffect<V>(s: State<V>, t: Token): State<V>
    requires t in s.calls
  {
    match s.calls[t].pc
    case Ready(r) =>
      var e := s.calls[t].epoch;
      if e < |s.hist| then
        Goto(s, t, InEffect(r)).(hist := s.hist[e := s.hist[e].(effects := s.hist[e].effects + [Effect(t, r)])])
      else s
    case _ => s
  }

  function StepEndEffect<V>(s: State<V>, t: Token, ok: bool): State<V>
    requires t in s.calls
  {
    match s.calls[t].pc
    case InEffect(r) =>
      var e := s.calls[t].epoch;
      if !ok then Goto(s, t, Releasing)
      else if e < |s.hist| then
        Goto(s, t, Effected(r)).(hist := s.hist[e := s.hist[e].(finished := s.hist[e].finished + [Effect(t, r)])])
      else s
    case _ => s
  }

  function StepComplete<V>(s: State<V>, t: Token, fault: Fault): State<V>
    requires |s.hist| > 0 && t in s.calls
  {
    match s.calls[t].pc
    case Effected(r) =>
      if fault.LostBefore? || !CanComplete(s.row, t) then Goto(s, t, Releasing)
      else
        var e := |s.hist| - 1;
        var committed := s.(row := Some(CompletedRow(s.row.value, s.now)),
                            hist := s.hist[e := s.hist[e].(completions := s.hist[e].completions + [t])]);
        Goto(committed, t, if fault.NoFault? then Returned(false, r) else Releasing)
    case _ => s
  }

  function StepRelease<V>(s: State<V>, t: Token, fault: Fault): State<V>
    requires t in s.calls
  {
    if !s.calls[t].pc.Releasing? then s
    else if fault.LostBefore? || !CanRelease(s.row, t) then Goto(s, t, Stopped)
    else Goto(s.(row := Some(ReleasedRow(s.row.value, s.now))), t, Stopped)
  }

  function StepPurge<V>(s: State<V>, cutoff: Time): State<V> {
    if s.row.Some? && s.row.value.status == Completed
       && s.row.value.completedAt.Some? && s.row.value.completedAt.value < cutoff
    then s.(row := None, hist := s.hist + [History([], [], [], [], [])])
    else s
  }

  function StepOn<V>(s: State<V>, t: Token, op: Op<V>): State<V>
    requires |s.hist| > 0 && t in s.calls
  {
    match op
    case Update(fault) => StepUpdate(s, t, fault)
    case Select(fault) => StepSelect(s, t, fault)
    case Prepare(outcome) => StepPrepare(s, t, outcome)
    case Save(fault) => StepSave(s, t, fault)
    case StartEffect => StepStartEffect(s, t)
    case EndEffect(ok) => StepEndEffect(s, t, ok)
    case Complete(fault) => StepComplete(s, t, fault)
    case Release(fault) => StepRelease(s, t, fault)
    case Crash => Goto(s, t, Stopped)
  }

  /** One atomic action; an action that is not enabled changes nothing. */
  function Step<V>(s: State<V>, a: Action<V>): State<V> {
    if |s.hist| == 0 then s else
    match a
    case Tick(to) => if s.now <= to then s.(now := to) else s
    case Insert(t, lease, fault) => StepInsert(s, t, lease, fault)
    case On(t, op) => if t in s.calls then StepOn(s, t, op) else s
    case Purge(cutoff) => StepPurge(s, cutoff)
  }

  function Run<V>(s: State<V>, acts: seq<Action<V>>): State<V>
    decreases |acts|
  {
    if acts == [] then s else Step(Run(s, acts[..|acts| - 1]), acts[|acts| - 1])
  }

  // ---------------------------------------------------------------- invariant

  /** The call holds a lock token and has not entered its catch block. */
  predicate Active<V>(pc: Pc<V>) {
    pc.Granted? || pc.Saving? || pc.Ready? || pc.InEffect? || pc.Effected?
  }

  /** A value an effect of this incarnation may carry: the saved one, unless null was saved. */
  ghost predicate Agreed<V>(h: History<V>, r: Option<V>) {
    h.saves != [] && (h.saves[0].Some? ==> r == h.saves[0])
  }

  ghost predicate HistoryOk<V>(h: History<V>) {
    && |h.saves| <= 1
    && |h.completions| <= 1
    && (h.completions != [] ==> exists f :: f in h.finished && f.token == h.completions[0])
    && NoDup(h.grants)
    && (forall i, j :: 0 <= i < j < |h.effects| ==> h.effects[i].token != h.effects[j].token)
    && (forall f :: f in h.effects ==> Agreed(h, f.value) && f.token in h.grants)
    && (forall f :: f in h.finished ==> f in h.effects)
  }

  ghost predicate RowOk<V>(row: Row<V>, h: History<V>) {
    && row.attempts == |h.grants|
    && (row.status == Processing <==> h.saves == [])
    && (row.status == Processing ==> row.result == None)
    && (row.status != Processing ==> row.result == h.saves[0])
    && (row.status == Completed <==> h.completions != [])
    && (row.status == Completed ==> row.lockToken == None)
  }

  ghost predicate LeaseOk<V>(s: State<V>)
    requires |s.hist| > 0
  {
    s.row.Some? && s.row.value.lockToken.Some? ==>
      var t := s.row.value.lockToken.value;
      && t in s.calls
      && s.calls[t].epoch == Epoch(s)
      && t in s.hist[Epoch(s)].grants
      && s.row.value.lockedUntil == Some(s.calls[t].lease)
  }

  ghost predicate Unused<V>(s: State<V>, t: Token) {
    forall e :: 0 <= e < |s.hist| ==> t !in s.hist[e].grants
  }

  ghost predicate CallOk<V>(s: State<V>, t: Token)
    requires |s.hist| > 0 && t in s.calls
  {
    var c := s.calls[t];
    && c.epoch < |s.hist|
    && c.txnNow <= s.now
    && (c.pc.Updating? || c.pc.Selecting? ==> Unused(s, t))
    && (c.pc.Granted? ==> c.pc.status != Completed)
    && (c.pc.Granted? && c.pc.status == Prepared ==> s.hist[c.epoch].saves == [c.pc.seen])
    && (c.pc.Ready? || c.pc.InEffect? || c.pc.Effected? ==> Agreed(s.hist[c.epoch], c.pc.result))
    && (Active(c.pc) ==> t in s.hist[c.epoch].grants)
    && (c.pc.Effected? ==> Effect(t, c.pc.result) in s.hist[c.epoch].finished)
    && (c.pc.InEffect? ==> Effect(t, c.pc.result) in s.hist[c.epoch].effects)
    && (c.pc.Granted? || c.pc.Saving? || c.pc.Ready? ==>
         forall f :: f in s.hist[c.epoch].effects ==> f.token != t)
    && (Active(c.pc) && s.now < c.lease ==>
         c.epoch == Epoch(s) && s.row.Some? && s.row.value.lockToken == Some(t))
    && (c.pc.Returned? && !c.pc.duplicate ==> t in s.hist[c.epoch].completions)
    && (c.pc.Returned? && !c.pc.duplicate ==> Effect(t, c.pc.answer) in s.hist[c.epoch].finished)
    && (c.pc.Returned? && !c.pc.duplicate ==> Agreed(s.hist[c.epoch], c.pc.answer))
    && (c.pc.Returned? && c.pc.duplicate ==>
          s.hist[c.epoch].completions != [] && s.hist[c.epoch].saves == [c.pc.answer])
  }

  ghost predicate Inv<V>(s: State<V>) {
    && |s.hist| > 0
    && (forall e :: 0 <= e < |s.hist| ==> HistoryOk(s.hist[e]))
    && (forall e, g :: 0 <= e < |s.hist| && g in s.hist[e].grants ==> g in s.calls)
    && (s.row.Some? ==> RowOk(s.row.value, s.hist[Epoch(s)]))
    && (s.row.None? ==> s.hist[Epoch(s)] == History([], [], [], [], []))
    && LeaseOk(s)
    && (forall t :: t in s.calls ==> CallOk(s, t))
  }

  // ------------------------------------------------------------ preservation

  /** `h'` adds to `h` only entries made by call `t`. */
  ghost predicate Grows<V>(h: History<V>, h': History<V>, t: Token) {
    && (forall g :: g in h.grants ==> g in h'.grants)
    && (forall g :: g in h'.grants ==> g in h.grants || g == t)
    && (h'.saves == h.saves || h.saves == [])
    && (forall f :: f in h.effects ==> f in h'.effects)
    && (forall f :: f in h'.effects ==> f in h.effects || f.token == t)
    && (forall f :: f in h.finished ==> f in h'.finished)
    && h.completions <= h'.completions
  }

  /** Nothing call `t` does upsets call `u`, as long as a live lease of `u` survives. */
  lemma OtherCallOk<V>(s: State<V>, s': State<V>, t: Token, e: nat, u: Token)
    requires |s.hist| > 0 && |s'.hist| == |s.hist| && e < |s.hist| && s.now == s'.now
    requires s'.hist == s.hist[e := s'.hist[e]] && Grows(s.hist[e], s'.hist[e], t)
    requires u in s.calls && u in s'.calls && u != t && s'.calls[u] == s.calls[u] && CallOk(s, u)
    requires Active(s.calls[u].pc) && s.now < s.calls[u].lease ==> s'.row.Some? && s'.row.value.lockToken == Some(u)
    ensures CallOk(s', u)
  {
    assert Grows(s.hist[s.calls[u].epoch], s'.hist[s.calls[u].epoch], t);
  }

  lemma AddGrant<V>(h: History<V>, t: Token)
    requires HistoryOk(h) && t !in h.grants
    ensures HistoryOk(h.(grants := h.grants + [t])) && Grows(h, h.(grants := h.grants + [t]), t)
  {
  }

  lemma AddSave<V>(h: History<V>, r: Option<V>, t: Token)
    requires HistoryOk(h) && h.saves == []
    ensures HistoryOk(h.(saves := h.saves + [r])) && Grows(h, h.(saves := h.saves + [r]), t)
  {
  }

  lemma AddEffect<V>(h: History<V>, t: Token, r: Option<V>)
    requires HistoryOk(h) && Agreed(h, r) && t in h.grants && forall f :: f in h.effects ==> f.token != t
    ensures var h' := h.(effects := h.effects + [Effect(t, r)]); HistoryOk(h') && Grows(h, h', t)
  {
    var h' := h.(effects := h.effects + [Effect(t, r)]);
    forall i, j | 0 <= i < j < |h'.effects|
      ensures h'.effects[i].token != h'.effects[j].token
    {
      if j == |h.effects| {
        assert h.effects[i] in h.effects;
      }
    }
  }

  lemma AddFinished<V>(h: History<V>, t: Token, r: Option<V>)
    requires HistoryOk(h) && Effect(t, r) in h.effects
    ensures var h' := h.(finished := h.finished + [Effect(t, r)]); HistoryOk(h') && Grows(h, h', t)
  {
    var h' := h.(finished := h.finished + [Effect(t, r)]);
    if h.completions != [] {
      var f :| f in h.finished && f.token == h.completions[0];
      assert f in h'.finished;
    }
  }

  lemma AddCompletion<V>(h: History<V>, t: Token, r: Option<V>)
    requires HistoryOk(h) && h.completions == [] && Effect(t, r) in h.finished
    ensures var h' := h.(completions := h.completions + [t]); HistoryOk(h') && Grows(h, h', t)
  {
  }

  /** The common shape of every step of a call `t`: it moves `t`, replaces one
      history by one that grows it, and leaves live leases of others alone. */
  lemma MoveKeepsInv<V>(s: State<V>, s': State<V>, t: Token, e: nat)
    requires Inv(s) && e < |s.hist|
    requires s'.now == s.now && |s'.hist| == |s.hist|
    requires t in s'.calls && s'.calls == s.calls[t := s'.calls[t]]
    requires s'.hist == s.hist[e := s'.hist[e]]
    requires HistoryOk(s'.hist[e]) && Grows(s.hist[e], s'.hist[e], t)
    requires s'.row.Some? ==> RowOk(s'.row.value, s'.hist[Epoch(s)])
    requires s'.row.None? ==> s'.hist[Epoch(s)] == History([], [], [], [], [])
    requires LeaseOk(s')
    requires CallOk(s', t)
    requires forall u :: u in s.calls && u != t && Active(s.calls[u].pc) && s.now < s.calls[u].lease
               ==> s'.row.Some? && s'.row.value.lockToken == Some(u)
    ensures Inv(s')
  {
    forall u | u in s'.calls
      ensures CallOk(s', u)
    {
      if u != t {
        assert CallOk(s, u);
        OtherCallOk(s, s', t, e, u);
      }
    }
  }

  lemma GotoKeepsInv<V>(s: State<V>, t: Token, pc: Pc<V>)
    requires Inv(s) && t in s.calls
    requires !Active(pc) && !pc.Updating? && !pc.Returned? && (pc.Selecting? ==> Unused(s, t))
    ensures Inv(Goto(s, t, pc))
  {
    assert CallOk(s, t);
    MoveKeepsInv(s, Goto(s, t, pc), t, s.calls[t].epoch);
  }

  lemma GrantKeepsInv<V>(s: State<V>, t: Token, call: Call<V>, row: Row<V>, replied: bool)
    requires Inv(s)
    requires Unused(s, t)
    requires call.txnNow <= s.now
    requires s.row.None? ==> row == InsertedRow(t, call.lease)
    requires s.row.Some? ==> Acquirable(s.row.value, s.now) && row == AcquiredRow(s.row.value, t, call.lease)
    ensures Inv(Grant(s, t, call, row, replied))
  {
    var s' := Grant(s, t, call, row, replied);
    var e := |s.hist| - 1;
    AddGrant(s.hist[e], t);
    forall u | u in s.calls
      ensures !(Active(s.calls[u].pc) && s.now < s.calls[u].lease)
    {
      assert CallOk(s, u);
    }
    MoveKeepsInv(s, s', t, e);
  }

  lemma InsertKeepsInv<V>(s: State<V>, t: Token, lease: Time, fault: Fault)
    requires Inv(s)
    ensures Inv(StepInsert(s, t, lease, fault))
  {
    if t !in s.calls {
      var call := Call(|s.hist| - 1, s.now, lease, Updating);
      if !fault.LostBefore? && s.row.None? {
        GrantKeepsInv(s, t, call, InsertedRow(t, lease), fault.NoFault?);
      } else {
        MoveKeepsInv(s, StepInsert(s, t, lease, fault), t, |s.hist| - 1);
      }
    }
  }

  lemma UpdateKeepsInv<V>(s: State<V>, t: Token, fault: Fault)
    requires Inv(s) && t in s.calls
    ensures Inv(StepUpdate(s, t, fault))
  {
    var call := s.calls[t];
    assert CallOk(s, t);
    if call.pc.Updating? {
      if !fault.LostBefore? && s.row.Some? && Acquirable(s.row.value, call.txnNow) {
        GrantKeepsInv(s, t, call, AcquiredRow(s.row.value, t, call.lease), fault.NoFault?);
      } else {
        GotoKeepsInv(s, t, if fault.NoFault? then Selecting else Stopped);
      }
    }
  }

  lemma SelectKeepsInv<V>(s: State<V>, t: Token, fault: Fault)
    requires Inv(s) && t in s.calls
    ensures Inv(StepSelect(s, t, fault))
  {
    assert CallOk(s, t);
    if s.calls[t].pc.Selecting? {
      MoveKeepsInv(s, StepSelect(s, t, fault), t, s.calls[t].epoch);
    }
  }

  lemma PrepareKeepsInv<V>(s: State<V>, t: Token, outcome: Option<Option<V>>)
    requires Inv(s) && t in s.calls
    ensures Inv(StepPrepare(s, t, outcome))
  {
    assert CallOk(s, t);
    if s.calls[t].pc.Granted? {
      var s' := StepPrepare(s, t, outcome);
      if s'.calls[t].pc.Releasing? {
        GotoKeepsInv(s, t, Releasing);
      } else {
        assert s'.calls[t].pc.Ready? || s'.calls[t].pc.Saving?;
        assert CallOk(s', t);
        MoveKeepsInv(s, s', t, s.calls[t].epoch);
      }
    }
  }

  lemma SaveKeepsInv<V>(s: State<V>, t: Token, fault: Fault)
    requires Inv(s) && t in s.calls
    ensures Inv(StepSave(s, t, fault))
  {
    assert CallOk(s, t);
    if s.calls[t].pc.Saving? {
      if fault.LostBefore? || !CanSave(s.row, t) {
        GotoKeepsInv(s, t, Releasing);
      } else {
        var e := |s.hist| - 1;
        AddSave(s.hist[e], s.calls[t].pc.result, t);
        MoveKeepsInv(s, StepSave(s, t, fault), t, e);
      }
    }
  }

  lemma StartEffectKeepsInv<V>(s: State<V>, t: Token)
    requires Inv(s) && t in s.calls
    ensures Inv(StepStartEffect(s, t))
  {
    assert CallOk(s, t);
    if s.calls[t].pc.Ready? {
      var e := s.calls[t].epoch;
      AddEffect(s.hist[e], t, s.calls[t].pc.result);
      MoveKeepsInv(s, StepStartEffect(s, t), t, e);
    }
  }

  lemma EndEffectKeepsInv<V>(s: State<V>, t: Token, ok: bool)
    requires Inv(s) && t in s.calls
    ensures Inv(StepEndEffect(s, t, ok))
  {
    assert CallOk(s, t);
    if s.calls[t].pc.InEffect? {
      if ok {
        var e := s.calls[t].epoch;
        AddFinished(s.hist[e], t, s.calls[t].pc.result);
        MoveKeepsInv(s, StepEndEffect(s, t, ok), t, e);
      } else {
        GotoKeepsInv(s, t, Releasing);
      }
    }
  }

  lemma CompletedCallOk<V>(s: State<V>, t: Token, s': State<V>)
    requires Inv(s) && t in s.calls && s.calls[t].pc.Effected? && s.calls[t].epoch == Epoch(s)
    requires s'.now == s.now && |s'.hist| == |s.hist| && t in s'.calls && s'.calls[t].epoch == Epoch(s)
    requires s'.calls[t] == s.calls[t].(pc := s'.calls[t].pc)
    requires s'.hist[Epoch(s)] == s.hist[Epoch(s)].(completions := s.hist[Epoch(s)].completions + [t])
    requires s'.calls[t].pc.Releasing? || s'.calls[t].pc == Returned(false, s.calls[t].pc.result)
    ensures CallOk(s', t)
  {
    assert CallOk(s, t);
  }

  lemma CompleteKeepsInv<V>(s: State<V>, t: Token, fault: Fault)
    requires Inv(s) && t in s.calls
    ensures Inv(StepComplete(s, t, fault))
  {
    assert CallOk(s, t);
    if s.calls[t].pc.Effected? {
      if fault.LostBefore? || !CanComplete(s.row, t) {
        GotoKeepsInv(s, t, Releasing);
      } else {
        var e, s' := |s.hist| - 1, StepComplete(s, t, fault);
        assert s.calls[t].epoch == e;
        AddCompletion(s.hist[e], t, s.calls[t].pc.result);
        assert s'.hist[e] == s.hist[e].(completions := s.hist[e].completions + [t]);
        CompletedCallOk(s, t, s');
        MoveKeepsInv(s, s', t, e);
      }
    }
  }

  lemma ReleaseKeepsInv<V>(s: State<V>, t: Token, fault: Fault)
    requires Inv(s) && t in s.calls
    ensures Inv(StepRelease(s, t, fault))
  {
    assert CallOk(s, t);
    if s.calls[t].pc.Releasing? {
      if fault.LostBefore? || !CanRelease(s.row, t) {
        GotoKeepsInv(s, t, Stopped);
      } else {
        MoveKeepsInv(s, StepRelease(s, t, fault), t, s.calls[t].epoch);
      }
    }
  }

  lemma PurgeKeepsInv<V>(s: State<V>, cutoff: Time)
    requires Inv(s)
    ensures Inv(StepPurge(s, cutoff))
  {
    var s' := StepPurge(s, cutoff);
    forall t | t in s'.calls
      ensures CallOk(s', t)
    {
      assert CallOk(s, t);
    }
  }

  lemma StepKeepsInv<V>(s: State<V>, a: Action<V>)
    requires Inv(s)
    ensures Inv(Step(s, a))
  {
    match a
    case Tick(to) =>
    case Insert(t, lease, fault) => InsertKeepsInv(s, t, lease, fault);
    case Purge(cutoff) => PurgeKeepsInv(s, cutoff);
    case On(t, op) =>
      if t in s.calls {
        match op
        case Update(fault) => UpdateKeepsInv(s, t, fault);
        case Select(fault) => SelectKeepsInv(s, t, fault);
        case Prepare(outcome) => PrepareKeepsInv(s, t, outcome);
        case Save(fault) => SaveKeepsInv(s, t, fault);
        case StartEffect => StartEffectKeepsInv(s, t);
        case EndEffect(ok) => EndEffectKeepsInv(s, t, ok);
        case Complete(fault) => CompleteKeepsInv(s, t, fault);
        case Release(fault) => ReleaseKeepsInv(s, t, fault);
        case Crash => GotoKeepsInv(s, t, Stopped);
      }
  }

  lemma {:induction false} RunKeepsInv<V>(acts: seq<Action<V>>)
    ensures Inv(Run(Init(), acts))
  {
    if acts != [] {
      RunKeepsInv(acts[..|acts| - 1]);
      StepKeepsInv(Run(Init(), acts[..|acts| - 1]), acts[|acts| - 1]);
    }
  }

  lemma RunStep<V>(s: State<V>, acts: seq<Action<V>>, a: Action<V>)
    ensures Run(s, acts + [a]) == Step(Run(s, acts), a)
  {
    assert (acts + [a])[..|acts|] == acts;
  }
}
