/** Retention of `kafka_consumer_inbox`
    (app/order-service/src/modules/retention/technical-retention.service.ts) against the
    protocol of InboxProtocol: a purge that comes later than every redelivery is invisible. */
module InboxRetention {
  import opened Common
  import opened InboxStore
  import opened InboxProtocol

  function WithoutPurges<V>(acts: seq<Action<V>>): seq<Action<V>> {
    if acts == [] then []
    else
      var before, last := WithoutPurges(acts[..|acts| - 1]), acts[|acts| - 1];
      if last.Purge? then before else before + [last]
  }

  /** Completed longer than `window` ago. */
  predicate Expired<V>(s: State<V>, window: Time) {
    && s.row.Some? && s.row.value.status == Completed
    && s.row.value.completedAt.Some? && s.row.value.completedAt.value + window < s.now
  }

  /** Statements of `claim` that tell a completed row from none: the insert of a new delivery, unless
      it is lost, and the select whose reply arrives. */
  predicate Notices<V>(s: State<V>, a: Action<V>) {
    || (a.Insert? && a.token !in s.calls && !a.fault.LostBefore?)
    || (a.On? && a.op == Select(NoFault) && a.token in s.calls && s.calls[a.token].pc.Selecting?)
  }

  /** No delivery looks the row up later than `window` after its completion. */
  ghost predicate Punctual<V>(acts: seq<Action<V>>, window: Time)
    decreases |acts|
  {
    acts != [] ==>
      var s := Run(Init(), acts[..|acts| - 1]);
      Punctual(acts[..|acts| - 1], window) && (Notices(s, acts[|acts| - 1]) ==> !Expired(s, window))
  }

  /** Every purge's cutoff lies `window` in the past. */
  ghost predicate CutoffsOk<V>(acts: seq<Action<V>>, window: Time)
    decreases |acts|
  {
    acts != [] ==>
      var before, last := acts[..|acts| - 1], acts[|acts| - 1];
      CutoffsOk(before, window) && (last.Purge? ==> last.cutoff <= Run(Init(), before).now - window)
  }

  function NoHistory<V>(): History<V> {
    History([], [], [], [], [])
  }

  /** `s` is `s0`, or `s0` without its row, which had expired. */
  ghost predicate Purged<V>(s: State<V>, s0: State<V>, window: Time) {
    || s == s0
    || (Expired(s0, window) && s == s0.(row := None, hist := s0.hist + [NoHistory()]))
  }

  lemma CallsAlike<V>(s: State<V>, s0: State<V>, t: Token, op: Op<V>, window: Time)
    requires Inv(s0) && Expired(s0, window) && s == s0.(row := None, hist := s0.hist + [NoHistory()])
    requires t in s0.calls && !(op == Select(NoFault) && s0.calls[t].pc.Selecting?)
    ensures var u, u0 := StepOn(s, t, op), StepOn(s0, t, op);
      && u0.row == s0.row && u0.now == s0.now && |u0.hist| == |s0.hist|
      && u.row == None && u.now == u0.now && u.calls == u0.calls && u.hist == u0.hist + [NoHistory()]
  {
    assert CallOk(s0, t);
    assert s0.row.value.lockToken == None;
    var e := s0.calls[t].epoch;
    assert s.hist[e] == s0.hist[e];
  }

  lemma StepAlike<V>(s: State<V>, s0: State<V>, a: Action<V>, window: Time)
    requires Inv(s0) && Purged(s, s0, window)
    requires Notices(s0, a) ==> !Expired(s0, window)
    requires a.Purge? ==> a.cutoff <= s.now - window
    ensures Purged(Step(s, a), if a.Purge? then s0 else Step(s0, a), window)
  {
    if a.On? && s != s0 && a.token in s0.calls {
      CallsAlike(s, s0, a.token, a.op, window);
    }
  }

  /** Every call goes on, answers and performs its effects as if nothing had been purged. */
  ghost predicate Unnoticed<V>(acts: seq<Action<V>>) {
    var s, s0 := Run(Init(), acts), Run(Init(), WithoutPurges(acts));
    && s.calls == s0.calls && s0.hist <= s.hist
    && forall e :: |s0.hist| <= e < |s.hist| ==> s.hist[e] == NoHistory()
  }

  /** A purge later than every delivery that could tell is invisible. */
  lemma {:induction false} TimelyPurgeIsInvisible<V>(acts: seq<Action<V>>, window: Time)
    requires CutoffsOk(acts, window) && Punctual(WithoutPurges(acts), window)
    ensures Purged(Run(Init(), acts), Run(Init(), WithoutPurges(acts)), window)
    ensures Unnoticed(acts)
  {
    if acts != [] {
      var before, last := acts[..|acts| - 1], acts[|acts| - 1];
      var kept := WithoutPurges(before);
      assert !last.Purge? ==> WithoutPurges(acts)[..|kept|] == kept;
      TimelyPurgeIsInvisible(before, window);
      RunKeepsInv(kept);
      StepAlike(Run(Init(), before), Run(Init(), kept), last, window);
      if !last.Purge? {
        RunStep(Init(), kept, last);
      }
    }
  }

  // ------------------------------------------------------------- and only then

  ghost predicate NoPurges<V>(acts: seq<Action<V>>) {
    forall a :: a in acts ==> !a.Purge?
  }

  /** The beginning of `acts` with purges of the retention job in between. */
  ghost predicate Schedule<V>(all: seq<Action<V>>, acts: seq<Action<V>>, window: Time) {
    WithoutPurges(all) <= acts && CutoffsOk(all, window)
  }

  lemma {:induction false} PunctualPrefix<V>(acts: seq<Action<V>>, n: nat, window: Time)
    requires n <= |acts| && Punctual(acts, window)
    ensures Punctual(acts[..n], window)
  {
    if n < |acts| {
      var before := acts[..|acts| - 1];
      PunctualPrefix(before, n, window);
      assert before[..n] == acts[..n];
    } else {
      assert acts[..n] == acts;
    }
  }

  lemma {:induction false} Late<V>(acts: seq<Action<V>>, window: Time) returns (i: nat)
    requires !Punctual(acts, window)
    ensures i < |acts| && Notices(Run(Init(), acts[..i]), acts[i]) && Expired(Run(Init(), acts[..i]), window)
  {
    var before := acts[..|acts| - 1];
    if Punctual(before, window) {
      i := |acts| - 1;
    } else {
      i := Late(before, window);
      assert before[..i] == acts[..i];
    }
  }

  lemma {:induction false} NothingToPurge<V>(acts: seq<Action<V>>, window: Time)
    requires NoPurges(acts)
    ensures WithoutPurges(acts) == acts && CutoffsOk(acts, window)
  {
    if acts != [] {
      assert acts[|acts| - 1] in acts;
      NothingToPurge(acts[..|acts| - 1], window);
    }
  }

  /** A late look-up right after a purge goes otherwise than without it. */
  lemma LateLookUpDiffers<V>(s: State<V>, a: Action<V>, window: Time)
    requires Inv(s) && Notices(s, a) && Expired(s, window)
    ensures var u, u0 := Step(Step(s, Purge(s.now - window)), a), Step(s, a);
      u.calls != u0.calls
  {
    var p := Step(s, Purge(s.now - window));
    assert p.row.None? && p.calls == s.calls && |p.hist| == |s.hist| + 1;
    var u, u0 := Step(p, a), Step(s, a);
    if a.Insert? {
      assert u.calls[a.token].epoch == |s.hist| && u0.calls[a.token].epoch == |s.hist| - 1;
    } else {
      assert u.calls[a.token].pc.Stopped? && u0.calls[a.token].pc.Returned?;
    }
  }

  lemma PurgeBefore<V>(acts: seq<Action<V>>, i: nat, window: Time) returns (all: seq<Action<V>>)
    requires NoPurges(acts) && i < |acts|
    requires Notices(Run(Init(), acts[..i]), acts[i]) && Expired(Run(Init(), acts[..i]), window)
    ensures Schedule(all, acts, window) && !Unnoticed(all)
  {
    var before, s := acts[..i], Run(Init(), acts[..i]);
    var purge: Action<V> := Purge(s.now - window);
    var purged := before + [purge];
    all := purged + [acts[i]];
    NothingToPurge(before, window);
    RunKeepsInv(before);
    assert acts[i] in acts;
    assert purged[..i] == before && all[..i + 1] == purged;
    assert WithoutPurges(purged) == before && WithoutPurges(all) == before + [acts[i]] == acts[..i + 1];
    RunStep(Init(), before, purge);
    RunStep(Init(), purged, acts[i]);
    RunStep(Init(), before, acts[i]);
    LateLookUpDiffers(s, acts[i], window);
  }

  /** No schedule of purges is noticed at any point of the run if and only if no delivery looks
      the row up later than the window allows. */
  lemma PurgeUnnoticedExactlyWhen<V(!new)>(acts: seq<Action<V>>, window: Time)
    requires NoPurges(acts)
    ensures (forall all :: Schedule(all, acts, window) ==> Unnoticed(all)) <==> Punctual(acts, window)
  {
    if Punctual(acts, window) {
      forall all | Schedule(all, acts, window) ensures Unnoticed(all) {
        PunctualPrefix(acts, |WithoutPurges(all)|, window);
        assert acts[..|WithoutPurges(all)|] == WithoutPurges(all);
        TimelyPurgeIsInvisible(all, window);
      }
    } else {
      var i := Late(acts, window);
      var all := PurgeBefore(acts, i, window);
    }
  }

  /** Only a completed row goes, so a run that purges has not lost an unfinished delivery. */
  lemma PurgeTakesFinishedOnly<V>(s: State<V>, cutoff: Time)
    requires Inv(s) && s.row.Some? && Step(s, Purge(cutoff)).row.None?
    ensures exists f :: f in s.hist[Epoch(s)].finished && f.token == s.hist[Epoch(s)].completions[0]
    ensures s.hist[Epoch(s)].completions != []
  {
    assert HistoryOk(s.hist[Epoch(s)]);
  }
}
