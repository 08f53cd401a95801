/** What the inbox does for an event that waits: a delivery that meets nobody else finishes it,
    a failure leaves it to the next delivery, and no crash blocks it for longer than a lease. */
module InboxProgress {
  import opened Common
  import opened InboxStore
  import opened InboxProtocol
  import opened InboxProcessor
  import opened InboxAlone

  /** The event is not done and no lease on it is alive. */
  predicate Waits<V>(row: Option<Row<V>>, now: Time) {
    row.Some? ==>
      && row.value.status != Completed
      && (row.value.lockedUntil.None? || row.value.lockedUntil.value <= now)
  }

  /** An earlier call left a result other than null. */
  predicate HasResult<V>(row: Option<Row<V>>) {
    row.Some? && row.value.status == Prepared && row.value.result.Some?
  }

  /** The value of the effect: the stored result if there is one, else what `prepare` returned. */
  function ValueOf<V>(row: Option<Row<V>>, prepared: Option<V>): Option<V> {
    if HasResult(row) then row.value.result else prepared
  }

  /** A delivery that meets a waiting event, and nobody else, finishes it. */
  lemma WaitingEventIsFinished<V>(s: State<V>, t: Token, lease: Time, prepared: Option<V>)
    requires Inv(s) && t !in s.calls && Waits(s.row, s.now)
    ensures var u, value := Run(s, Awaits(t, lease, Some(prepared), true)), ValueOf(s.row, prepared);
      && u.row.Some? && u.row.value.status == Completed && u.row.value.completedAt == Some(s.now)
      && u.row.value.lockToken.None? && u.row.value.lockedUntil.None?
      && u.row.value.attempts == 1 + (if s.row.Some? then s.row.value.attempts else 0)
      && u.row.value.result == (if s.row.Some? && s.row.value.status == Prepared then s.row.value.result else prepared)
      && t in u.calls && u.calls[t].pc == Returned(false, value)
      && |u.hist| > 0 && Resolved(u) == Resolved(s) + [Effect(t, value)]
  {
    AloneIsARun(s, t, lease, Some(prepared), true);
  }

  /** A delivery of a finished event answers with its result and has no effect. */
  lemma FinishedEventIsAnswered<V>(s: State<V>, t: Token, lease: Time, prepared: Option<Option<V>>, ok: bool)
    requires Inv(s) && t !in s.calls && s.row.Some? && s.row.value.status == Completed
    ensures var u := Run(s, Awaits(t, lease, prepared, ok));
      && u.row == s.row && t in u.calls && u.calls[t].pc == Returned(true, s.row.value.result)
      && |u.hist| > 0 && Resolved(u) == Resolved(s)
  {
    AloneIsARun(s, t, lease, prepared, ok);
  }

  /** While another call's lease is alive a delivery throws and leaves the row to its owner. */
  lemma LeasedEventIsLeft<V>(s: State<V>, t: Token, lease: Time, prepared: Option<Option<V>>, ok: bool)
    requires Inv(s) && t !in s.calls && s.row.Some? && s.row.value.status != Completed
    requires s.row.value.lockedUntil.Some? && s.row.value.lockedUntil.value > s.now
    ensures var u := Run(s, Awaits(t, lease, prepared, ok));
      && u.row == s.row && t in u.calls && u.calls[t].pc == Stopped
      && |u.hist| > 0 && Resolved(u) == Resolved(s)
  {
    AloneIsARun(s, t, lease, prepared, ok);
  }

  /** If `prepare` or the effect throws, the delivery throws and the event waits again at once; a
      result that `prepare` returned is kept for the next delivery. */
  lemma FailedEventWaitsAgain<V>(s: State<V>, t: Token, lease: Time, prepared: Option<Option<V>>, ok: bool)
    requires Inv(s) && t !in s.calls && Waits(s.row, s.now)
    requires !ok || (prepared.None? && !HasResult(s.row))
    ensures var u := Run(s, Awaits(t, lease, prepared, ok));
      && u.row.Some? && Waits(u.row, s.now) && u.now == s.now
      && t in u.calls && u.calls[t].pc == Stopped && |u.hist| > 0 && Resolved(u) == Resolved(s)
      && (u.row.value.status == Prepared <==>
            prepared.Some? || (s.row.Some? && s.row.value.status == Prepared))
      && (s.row.Some? && s.row.value.status == Prepared ==> u.row.value.result == s.row.value.result)
      && (prepared.Some? && !(s.row.Some? && s.row.value.status == Prepared) ==> u.row.value.result == prepared.value)
  {
    AloneIsARun(s, t, lease, prepared, ok);
  }

  // ------------------------------------------------------------------ no lease is for ever

  /** A row without an owner is not locked any more. */
  ghost predicate Unlocked<V>(s: State<V>) {
    s.row.Some? && s.row.value.lockToken.None? && s.row.value.lockedUntil.Some? ==>
      s.row.value.lockedUntil.value <= s.now
  }

  lemma StepKeepsUnlocked<V>(s: State<V>, a: Action<V>)
    requires Unlocked(s)
    ensures Unlocked(Step(s, a))
  {
  }

  lemma {:induction false} RunKeepsUnlocked<V>(acts: seq<Action<V>>)
    ensures Unlocked(Run(Init(), acts))
  {
    if acts != [] {
      RunKeepsUnlocked(acts[..|acts| - 1]);
      StepKeepsUnlocked(Run(Init(), acts[..|acts| - 1]), acts[|acts| - 1]);
    }
  }

  /** Whatever crashed: an unfinished event waits as soon as the leases of all calls are over,
      and until then one call of this incarnation holds it. */
  lemma LeasesEnd<V>(acts: seq<Action<V>>)
    ensures var s := Run(Init(), acts);
      s.row.Some? && s.row.value.status != Completed && !Waits(s.row, s.now)
      ==> exists t :: t in s.calls && s.row.value.lockToken == Some(t) && s.calls[t].lease > s.now
  {
    var s: State<V> := Run(Init(), acts);
    RunKeepsInv(acts);
    RunKeepsUnlocked(acts);
    if s.row.Some? && s.row.value.status != Completed && !Waits(s.row, s.now) {
      assert LeaseOk(s);
      var t := s.row.value.lockToken.value;
      assert t in s.calls && s.calls[t].lease > s.now;
    }
  }

  /** After any run at all, an event is finished by the first delivery that comes alone after the
      lease has ended, or it is finished already. */
  lemma EveryEventCanBeFinished<V>(acts: seq<Action<V>>, to: Time, t: Token, lease: Time, prepared: Option<V>)
    requires var s := Run(Init(), acts);
      && s.now <= to && t !in s.calls
      && (s.row.Some? && s.row.value.lockedUntil.Some? ==> s.row.value.lockedUntil.value <= to)
    ensures var u := Run(Run(Init(), acts + [Tick(to)]), Awaits(t, lease, Some(prepared), true));
      && u.row.Some? && u.row.value.status == Completed
      && t in u.calls && u.calls[t].pc.Returned?
  {
    RunStep(Init(), acts, Tick(to));
    RunKeepsInv(acts + [Tick(to)]);
    var s: State<V> := Run(Init(), acts + [Tick(to)]);
    if s.row.Some? && s.row.value.status == Completed {
      FinishedEventIsAnswered(s, t, lease, Some(prepared), true);
    } else {
      WaitingEventIsFinished(s, t, lease, prepared);
    }
  }
}
