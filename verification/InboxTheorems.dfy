/** What the prepare/effect protocol guarantees in every run. */
module InboxTheorems {
  import opened Common
  import opened InboxStore
  import opened InboxProtocol

  ghost predicate Reachable<V(!new)>(s: State<V>) {
    exists acts: seq<Action<V>> :: s == Run(Init(), acts)
  }

  lemma ReachableInv<V(!new)>(s: State<V>)
    requires Reachable(s)
    ensures Inv(s)
  {
    var acts: seq<Action<V>> :| s == Run(Init(), acts);
    RunKeepsInv(acts);
  }

  // ---------------------------------------------------------------- agreement

  /** Within each incarnation of the row all effects were called with one value. */
  ghost predicate Agreement<V>(s: State<V>) {
    forall e, f, g :: 0 <= e < |s.hist| && f in s.hist[e].effects && g in s.hist[e].effects ==> f.value == g.value
  }

  /** Every value `prepare` returns satisfies `p`. */
  ghost predicate PreparesOnly<V>(acts: seq<Action<V>>, p: Option<V> -> bool) {
    forall a :: a in acts && a.On? && a.op.Prepare? && a.op.outcome.Some? ==> p(a.op.outcome.value)
  }

  ghost predicate PcValues<V>(pc: Pc<V>, p: Option<V> -> bool) {
    && (pc.Saving? || pc.Ready? || pc.InEffect? || pc.Effected? ==> p(pc.result))
    && (pc.Granted? && pc.status == Prepared ==> p(pc.seen))
  }

  ghost predicate Values<V>(s: State<V>, p: Option<V> -> bool) {
    && (s.row.Some? && s.row.value.status != Processing ==> p(s.row.value.result))
    && (forall t :: t in s.calls ==> PcValues(s.calls[t].pc, p))
    && (forall e, f :: 0 <= e < |s.hist| && f in s.hist[e].effects ==> p(f.value))
  }

  lemma OpKeepsPcValues<V>(s: State<V>, t: Token, op: Op<V>, p: Option<V> -> bool)
    requires Inv(s) && Values(s, p) && t in s.calls
    requires op.Prepare? && op.outcome.Some? ==> p(op.outcome.value)
    ensures t in StepOn(s, t, op).calls && PcValues(StepOn(s, t, op).calls[t].pc, p)
  {
    assert PcValues(s.calls[t].pc, p) && CallOk(s, t);
  }

  /** What an await can add to the row and the histories. */
  lemma OpLeaves<V>(s: State<V>, t: Token, op: Op<V>)
    requires |s.hist| > 0 && t in s.calls
    ensures var s' := StepOn(s, t, op);
      && s'.calls.Keys == s.calls.Keys && (forall u :: u in s.calls && u != t ==> s'.calls[u] == s.calls[u])
      && |s'.hist| == |s.hist|
      && (s'.row.Some? ==> s.row.Some?)
      && (s'.row.Some? && s'.row.value.status != Processing && s.row.value.status == Processing ==>
            s.calls[t].pc.Saving? && s'.row.value.result == s.calls[t].pc.result)
      && (s'.row.Some? && s.row.value.status != Processing ==> s'.row.value.result == s.row.value.result)
  {
  }

  lemma OpLeavesEffects<V>(s: State<V>, t: Token, op: Op<V>, e: nat, f: Effect<V>)
    requires |s.hist| > 0 && t in s.calls && e < |s.hist|
    requires |StepOn(s, t, op).hist| == |s.hist| && f in StepOn(s, t, op).hist[e].effects
    ensures f in s.hist[e].effects || (s.calls[t].pc.Ready? && f == Effect(t, s.calls[t].pc.result))
  {
  }

  lemma StepOnKeepsValues<V>(s: State<V>, t: Token, op: Op<V>, p: Option<V> -> bool)
    requires Inv(s) && Values(s, p) && t in s.calls
    requires op.Prepare? && op.outcome.Some? ==> p(op.outcome.value)
    ensures Values(StepOn(s, t, op), p)
  {
    var s' := StepOn(s, t, op);
    assert PcValues(s.calls[t].pc, p);
    OpKeepsPcValues(s, t, op, p);
    OpLeaves(s, t, op);
    forall u | u in s'.calls
      ensures PcValues(s'.calls[u].pc, p)
    {
      assert u in s.calls;
    }
    forall e, f | 0 <= e < |s'.hist| && f in s'.hist[e].effects
      ensures p(f.value)
    {
      OpLeavesEffects(s, t, op, e, f);
    }
  }

  lemma StepKeepsValues<V>(s: State<V>, a: Action<V>, p: Option<V> -> bool)
    requires Inv(s) && Values(s, p)
    requires a.On? && a.op.Prepare? && a.op.outcome.Some? ==> p(a.op.outcome.value)
    ensures Values(Step(s, a), p)
  {
    if a.On? && a.token in s.calls {
      StepOnKeepsValues(s, a.token, a.op, p);
    }
  }

  lemma {:induction false} RunKeepsValues<V>(acts: seq<Action<V>>, p: Option<V> -> bool)
    requires PreparesOnly(acts, p)
    ensures Values(Run(Init(), acts), p)
  {
    if acts != [] {
      var before, last := acts[..|acts| - 1], acts[|acts| - 1];
      RunKeepsValues(before, p);
      RunKeepsInv(before);
      assert last in acts;
      StepKeepsValues(Run(Init(), before), last, p);
    }
  }

  /** The call that saves null, enters its effect and crashes; after its lease a
      second call finds the null, prepares again and enters its effect. */
  function NullThen<V>(v: V): seq<Action<V>> {
    [Insert(0, 10, NoFault), On(0, Prepare(Some(None))), On(0, Save(NoFault)), On(0, StartEffect), On(0, Crash),
     Tick(10), Insert(1, 20, NoFault), On(1, Update(NoFault)), On(1, Prepare(Some(Some(v)))), On(1, StartEffect)]
  }

  /** The states `NullThen` runs through once the null is saved and the first worker is gone. */
  function NullSaved<V>(): State<V> {
    State(0, Some(Row(Prepared, None, Some(0), Some(10), 1, None)), map[0 := Call(0, 0, 10, Stopped)],
          [History([0], [None], [Effect(0, None)], [], [])])
  }

  lemma NullSavedReached<V>(v: V)
    ensures Run(Init(), NullThen(v)[..5]) == NullSaved()
  {
    var acts := NullThen(v);
    var s1 := Step(Init(), acts[0]);
    assert s1.calls[0] == Call(0, 0, 10, Granted(Processing, None));
    assert s1.hist[0].grants == [0];
    var s2 := Step(s1, acts[1]);
    var s3 := Step(s2, acts[2]);
    assert s3.calls[0].pc == Ready(None);
    assert s3.hist[0].saves == [None];
    var s4 := Step(s3, acts[3]);
    var s5 := Step(s4, acts[4]);
    assert s5.hist[0].effects == [Effect(0, None)];
    assert s5.calls == NullSaved<V>().calls;
    RunPrefixes(acts, 5);
    assert Run(Init(), acts[..1]) == s1;
    assert Run(Init(), acts[..2]) == s2;
    assert Run(Init(), acts[..3]) == s3;
    assert Run(Init(), acts[..4]) == s4;
  }

  lemma RunPrefixes<V>(acts: seq<Action<V>>, n: nat)
    requires n <= |acts|
    ensures Run(Init(), acts[..0]) == Init()
    ensures forall i :: 0 <= i < n ==> Run(Init(), acts[..i + 1]) == Step(Run(Init(), acts[..i]), acts[i])
  {
    forall i | 0 <= i < n
      ensures Run(Init(), acts[..i + 1]) == Step(Run(Init(), acts[..i]), acts[i])
    {
      assert acts[..i + 1] == acts[..i] + [acts[i]];
      RunStep(Init(), acts[..i], acts[i]);
    }
  }

  lemma NullGrantedAgain<V>(v: V)
    ensures var acts := NullThen(v);
      var s := Step(Step(Step(NullSaved(), acts[5]), acts[6]), acts[7]);
      1 in s.calls && s.calls[1] == Call(0, 10, 20, Granted(Prepared, None))
      && |s.hist| == 1 && s.hist[0].effects == [Effect(0, None)]
  {
    var s7 := Step(Step(NullSaved(), NullThen(v)[5]), NullThen(v)[6]);
    assert s7.calls[1] == Call(0, 10, 20, Updating);
  }

  lemma NullReplaced<V>(v: V, s: State<V>)
    requires 1 in s.calls && s.calls[1] == Call(0, 10, 20, Granted(Prepared, None))
    requires |s.hist| == 1 && s.hist[0].effects == [Effect(0, None)]
    ensures var acts := NullThen(v); !Agreement(Step(Step(s, acts[8]), acts[9]))
  {
    var s10 := Step(Step(s, NullThen(v)[8]), NullThen(v)[9]);
    assert s10.hist[0].effects == [Effect(0, None), Effect(1, Some(v))];
    assert Effect(0, None) in s10.hist[0].effects && Effect(1, Some(v)) in s10.hist[0].effects;
  }

  lemma NullBreaksAgreement<V>(v: V)
    ensures !Agreement(Run(Init(), NullThen(v)))
  {
    var acts := NullThen(v);
    NullSavedReached(v);
    RunPrefixes(acts, 10);
    NullGrantedAgain(v);
    NullReplaced(v, Run(Init(), acts[..8]));
    assert acts[..10] == acts;
  }

  /** Effects of one incarnation agree in all runs exactly when `prepare` either
      never returns null or returns nothing but null. */
  lemma EffectsAgreeExactlyWhen<V(!new)>(p: Option<V> -> bool)
    ensures (forall acts: seq<Action<V>> | PreparesOnly(acts, p) :: Agreement(Run(Init(), acts)))
       <==> (p(None) ==> forall x :: p(x) ==> x == None)
  {
    if p(None) ==> forall x :: p(x) ==> x == None {
      forall acts: seq<Action<V>> | PreparesOnly(acts, p)
        ensures Agreement(Run(Init(), acts))
      {
        RunKeepsInv(acts);
        RunKeepsValues(acts, p);
        SavedValues(acts, p);
      }
    } else {
      var x :| p(x) && x != None;
      NullBreaksAgreement(x.value);
      assert PreparesOnly(NullThen(x.value), p);
    }
  }

  /** What is saved was prepared. */
  lemma {:induction false} SavedValues<V>(acts: seq<Action<V>>, p: Option<V> -> bool)
    requires PreparesOnly(acts, p)
    ensures forall e, r :: 0 <= e < |Run(Init(), acts).hist| && r in Run(Init(), acts).hist[e].saves ==> p(r)
  {
    if acts != [] {
      var before, last := acts[..|acts| - 1], acts[|acts| - 1];
      SavedValues(before, p);
      RunKeepsValues(before, p);
      var s := Run(Init(), before);
      if last.On? && last.token in s.calls {
        assert PcValues(s.calls[last.token].pc, p);
      }
    }
  }

  /** The agreed value is the one in the row, and it was saved once. */
  lemma EffectsCarryTheStoredResult<V(!new)>(s: State<V>)
    requires Reachable(s)
    ensures |s.hist| > 0
    ensures forall h :: h in s.hist ==> |h.saves| <= 1
    ensures s.row.Some? && s.row.value.result.Some? ==>
              forall f :: f in s.hist[Epoch(s)].effects ==> f.value == s.row.value.result
    ensures s.row.None? || s.row.value.status == Processing ==> s.hist[Epoch(s)].effects == []
  {
    ReachableInv(s);
    var h := s.hist[Epoch(s)];
    assert HistoryOk(h);
    if h.effects != [] {
      assert h.effects[0] in h.effects;
    }
  }

  // --------------------------------------------------------------- completion

  lemma CompletedMeansDone<V(!new)>(s: State<V>)
    requires Reachable(s) && s.row.Some? && s.row.value.status == Completed
    ensures |s.hist| > 0
    ensures exists f :: f in s.hist[Epoch(s)].finished && (s.row.value.result.Some? ==> f.value == s.row.value.result)
  {
    ReachableInv(s);
    var h := s.hist[Epoch(s)];
    assert HistoryOk(h) && RowOk(s.row.value, h);
    var f :| f in h.finished && f.token == h.completions[0];
    assert f in h.effects && Agreed(h, f.value);
  }

  /** All calls that return for one incarnation give the same answer (unless null
      was saved), and only one of them says it was not a duplicate. */
  lemma AnswersAgree<V(!new)>(s: State<V>, t: Token, u: Token)
    requires Reachable(s) && t in s.calls && u in s.calls && t != u
    requires s.calls[t].pc.Returned? && s.calls[u].pc.Returned? && s.calls[t].epoch == s.calls[u].epoch
    ensures s.calls[t].pc.duplicate || s.calls[u].pc.duplicate
    ensures s.calls[t].epoch < |s.hist|
    ensures s.calls[t].pc.answer == s.calls[u].pc.answer || s.hist[s.calls[t].epoch].saves == [None]
  {
    ReachableInv(s);
    assert CallOk(s, t) && CallOk(s, u);
    var h := s.hist[s.calls[t].epoch];
    assert HistoryOk(h);
  }

  /** Every started effect spends a grant of its own, and `attempts` counts the grants. */
  lemma EffectsWithinAttempts<V(!new)>(s: State<V>)
    requires Reachable(s)
    ensures forall h :: h in s.hist ==> |h.effects| <= |h.grants|
    ensures |s.hist| > 0
    ensures s.row.Some? ==> |s.hist[Epoch(s)].effects| <= s.row.value.attempts == |s.hist[Epoch(s)].grants|
  {
    ReachableInv(s);
    forall h | h in s.hist
      ensures |h.effects| <= |h.grants|
    {
      var tokens := seq(|h.effects|, i requires 0 <= i < |h.effects| => h.effects[i].token);
      forall x | x in tokens
        ensures x in h.grants
      {
        var i :| 0 <= i < |tokens| && tokens[i] == x;
        assert h.effects[i] in h.effects;
      }
      Pigeonhole(tokens, h.grants);
    }
    if s.row.Some? {
      assert s.hist[Epoch(s)] in s.hist;
    }
  }

  /** While leases hold there is one worker: two calls between their claim and
      their mark at once mean that one of the two has outlived its lease. */
  lemma OverlapNeedsAnExpiredLease<V(!new)>(s: State<V>, t: Token, u: Token)
    requires Reachable(s) && t in s.calls && u in s.calls && t != u
    requires Active(s.calls[t].pc) && Active(s.calls[u].pc)
    ensures s.calls[t].lease <= s.now || s.calls[u].lease <= s.now
  {
    ReachableInv(s);
    assert CallOk(s, t) && CallOk(s, u);
  }

  function Rank(st: Status): nat {
    match st case Processing => 0 case Prepared => 1 case Completed => 2
  }

  /** The status only advances, and a saved result stays as it was saved. */
  lemma StatusAdvances<V>(s: State<V>, a: Action<V>)
    requires Inv(s) && s.row.Some? && Step(s, a).row.Some?
    ensures var r, r' := s.row.value, Step(s, a).row.value;
      && Rank(r.status) <= Rank(r'.status) <= Rank(r.status) + 1
      && (r.status != Processing ==> r'.result == r.result)
      && r.attempts <= r'.attempts
  {
  }

  /** `s'` has the row of `s` and granted, saved and completed nothing more in its incarnation. */
  ghost predicate Frozen<V>(s: State<V>, s': State<V>)
    requires |s.hist| > 0
  {
    && s'.row == s.row && |s'.hist| == |s.hist|
    && s'.hist[Epoch(s)].grants == s.hist[Epoch(s)].grants
    && s'.hist[Epoch(s)].saves == s.hist[Epoch(s)].saves
    && s'.hist[Epoch(s)].completions == s.hist[Epoch(s)].completions
  }

  lemma CompletedStep<V>(s: State<V>, a: Action<V>)
    requires Inv(s) && s.row.Some? && s.row.value.status == Completed && !a.Purge?
    ensures Inv(Step(s, a)) && Frozen(s, Step(s, a))
  {
    StepKeepsInv(s, a);
    if a.On? && a.token in s.calls {
      CompletedOp(s, a.token, a.op);
    }
  }

  lemma CompletedOp<V>(s: State<V>, t: Token, op: Op<V>)
    requires Inv(s) && s.row.Some? && s.row.value.status == Completed && t in s.calls
    ensures Frozen(s, StepOn(s, t, op))
  {
    assert CallOk(s, t);
    assert !CanSave(s.row, t) && !CanComplete(s.row, t) && !CanRelease(s.row, t);
  }

  lemma FrozenTransitive<V>(s: State<V>, s1: State<V>, s2: State<V>)
    requires |s.hist| > 0 && Frozen(s, s1) && Frozen(s1, s2)
    ensures Frozen(s, s2)
  {
  }

  lemma {:induction false} CompletedStays<V>(s: State<V>, acts: seq<Action<V>>)
    requires Inv(s) && s.row.Some? && s.row.value.status == Completed
    requires forall a :: a in acts ==> !a.Purge?
    ensures Inv(Run(s, acts)) && Frozen(s, Run(s, acts))
  {
    if acts != [] {
      var before, last := acts[..|acts| - 1], acts[|acts| - 1];
      CompletedStays(s, before);
      assert last in acts;
      CompletedStep(Run(s, before), last);
      FrozenTransitive(s, Run(s, before), Run(s, acts));
    }
  }

  /** Once COMPLETED, and until retention purges it, the row never changes again:
      no later call is granted it, so a late effect belongs to an earlier grant. */
  lemma CompletedIsFinal<V>(s: State<V>, acts: seq<Action<V>>, f: Effect<V>)
    requires Inv(s) && s.row.Some? && s.row.value.status == Completed
    requires forall a :: a in acts ==> !a.Purge?
    ensures Frozen(s, Run(s, acts))
    ensures f in Run(s, acts).hist[Epoch(s)].effects ==> f.token in s.hist[Epoch(s)].grants
  {
    CompletedStays(s, acts);
    assert HistoryOk(Run(s, acts).hist[Epoch(s)]);
  }
}
