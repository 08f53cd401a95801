/** `process` of packages/kafka/src/inbox/kafka-idempotent-event-processor.ts as the
    program it is: awaits in order, a try block, a catch block that releases.
    Between two awaits any other calls may run. */
module InboxProcessor {
  import opened Common
  import opened InboxStore
  import opened InboxProtocol

  datatype Outcome<+V> = Answer(duplicate: bool, result: Option<V>) | Threw

  /** What the environment decides about one call: how its user callbacks end,
      which connections break, and what other calls do before each await. */
  datatype Environment<V> = Environment(prepared: Option<Option<V>>, effectOk: bool,
                                        fault: nat -> Fault, others: nat -> seq<Action<V>>)

  predicate Mine<V>(a: Action<V>, t: Token) {
    (a.Insert? || a.On?) && a.token == t
  }

  ghost predicate Faultless<V>(env: Environment<V>) {
    forall i :: env.fault(i) == NoFault
  }

  /** One await of the program, with the end its environment gives it. */
  predicate Honest<V(==)>(a: Action<V>, t: Token, lease: Time, env: Environment<V>) {
    if a.Insert? then a == Insert(t, lease, env.fault(0))
    else
      && a.On?
      && match a.op
         case Update(fault) => fault == env.fault(1)
         case Select(fault) => fault == env.fault(2)
         case Prepare(outcome) => outcome == env.prepared
         case Save(fault) => fault == env.fault(4)
         case StartEffect => true
         case EndEffect(ok) => ok == env.effectOk
         case Complete(fault) => fault == env.fault(7)
         case Release(fault) => fault == env.fault(8)
         case Crash => false
  }

  /** `past` grew, and what call `t` added to it are its own awaits. */
  ghost predicate Went<V>(before: seq<Action<V>>, past: seq<Action<V>>, t: Token, lease: Time, env: Environment<V>) {
    && before <= past
    && forall i :: |before| <= i < |past| && Mine(past[i], t) ==> Honest(past[i], t, lease, env)
  }

  /** Nothing is left for the call to do. */
  predicate Over<V>(pc: Pc<V>) {
    pc.Returned? || pc.Stopped?
  }

  /** What the caller gets. */
  function AnswerOf<V>(pc: Pc<V>): Outcome<V> {
    if pc.Returned? then Answer(pc.duplicate, pc.answer) else Threw
  }

  /** The call does not own the row. */
  ghost predicate LetGo<V>(s: State<V>, t: Token) {
    s.row.Some? ==> s.row.value.lockToken != Some(t)
  }

  /** The effect finished with this value and this very call completed the row. */
  ghost predicate AnsweredFirst<V>(s: State<V>, t: Token, result: Option<V>) {
    && t in s.calls && s.calls[t].epoch < |s.hist|
    && var h := s.hist[s.calls[t].epoch];
       h.completions == [t] && Effect(t, result) in h.finished && Agreed(h, result)
  }

  /** Some call completed the row and `result` is what the row stores. */
  ghost predicate AnsweredAgain<V>(s: State<V>, t: Token, result: Option<V>) {
    && t in s.calls && s.calls[t].epoch < |s.hist|
    && var h := s.hist[s.calls[t].epoch];
       |h.completions| == 1 && h.saves == [result]
  }

  lemma AnswersMean<V>(s: State<V>, t: Token)
    requires Inv(s) && t in s.calls && s.calls[t].pc.Returned?
    ensures !s.calls[t].pc.duplicate ==> AnsweredFirst(s, t, s.calls[t].pc.answer)
    ensures s.calls[t].pc.duplicate ==> AnsweredAgain(s, t, s.calls[t].pc.answer)
  {
    assert CallOk(s, t) && HistoryOk(s.hist[s.calls[t].epoch]);
  }

  /** Where an await of a call can take it. */
  ghost predicate Flows<V>(pc: Pc<V>, op: Op<V>, pc': Pc<V>) {
    match op
    case Update(_) => pc.Updating? ==> pc'.Granted? || pc'.Selecting? || pc'.Stopped?
    case Select(_) => pc.Selecting? ==> (pc'.Returned? && pc'.duplicate) || pc'.Stopped?
    case Prepare(_) => pc.Granted? ==> pc'.Ready? || pc'.Saving? || pc'.Releasing?
    case Save(_) => pc.Saving? ==> pc'.Ready? || pc'.Releasing?
    case StartEffect => pc.Ready? ==> pc'.InEffect?
    case EndEffect(_) => pc.InEffect? ==> pc'.Effected? || pc'.Releasing?
    case Complete(_) => pc.Effected? ==> (pc'.Returned? && !pc'.duplicate) || pc'.Releasing?
    case Release(_) => pc.Releasing? ==> pc'.Stopped?
    case _ => true
  }

  lemma AwaitFlows<V>(s: State<V>, t: Token, op: Op<V>)
    requires Inv(s) && t in s.calls
    ensures var s' := Step(s, On(t, op));
      t in s'.calls && Flows(s.calls[t].pc, op, s'.calls[t].pc)
  {
    assert CallOk(s, t);
  }

  lemma ReleasedLetsGo<V>(s: State<V>, t: Token)
    requires Inv(s) && t in s.calls && s.calls[t].pc.Releasing?
    ensures LetGo(Step(s, On(t, Release(NoFault))), t)
  {
  }

  /** Without faults only a granted call that has not ended yet owns the row. */
  lemma CompletedLetsGo<V>(s: State<V>, t: Token)
    requires Inv(s) && t in s.calls && s.calls[t].pc.Effected?
    ensures var s' := Step(s, On(t, Complete(NoFault))); t in s'.calls && (s'.calls[t].pc.Returned? ==> LetGo(s', t))
  {
  }

  /** After which awaits the call does not own the row. */
  lemma AwaitLetsGo<V>(s: State<V>, t: Token, op: Op<V>)
    requires Inv(s) && t in s.calls && t in Step(s, On(t, op)).calls
    ensures var pc, s' := s.calls[t].pc, Step(s, On(t, op));
      var pc' := s'.calls[t].pc;
      && (op == Release(NoFault) && pc.Releasing? ==> LetGo(s', t))
      && (op == Complete(NoFault) && pc.Effected? && pc'.Returned? ==> LetGo(s', t))
      && (pc'.Updating? || pc'.Selecting? ==> LetGo(s', t))
      && (op == Update(NoFault) && pc.Updating? && !pc'.Granted? ==> LetGo(s', t))
      && (op == Select(NoFault) && pc.Selecting? ==> LetGo(s', t))
  {
    var s' := Step(s, On(t, op));
    if s.calls[t].pc.Releasing? {
      ReleasedLetsGo(s, t);
    }
    if s.calls[t].pc.Effected? {
      CompletedLetsGo(s, t);
    }
    if s.calls[t].pc.Updating? || s.calls[t].pc.Selecting? {
      OwnersWereGranted(s, t);
    }
    StepKeepsInv(s, On(t, op));
    if s'.calls[t].pc.Updating? || s'.calls[t].pc.Selecting? {
      OwnersWereGranted(s', t);
    }
  }

  /** Only a call that was granted the row can own it. */
  lemma OwnersWereGranted<V>(s: State<V>, t: Token)
    requires Inv(s)
    requires t !in s.calls || s.calls[t].pc.Updating? || s.calls[t].pc.Selecting?
    ensures LetGo(s, t)
  {
    if t in s.calls {
      assert CallOk(s, t);
    }
  }

  lemma {:induction false} OthersLeave<V>(past: seq<Action<V>>, acts: seq<Action<V>>, t: Token)
    requires forall a :: a in acts ==> !Mine(a, t)
    ensures var s, s' := Run(Init(), past), Run(Init(), past + acts);
      && (t in s.calls <==> t in s'.calls)
      && (t in s.calls ==> s'.calls[t] == s.calls[t])
      && (t in s.calls && LetGo(s, t) ==> LetGo(s', t))
  {
    if acts == [] {
      assert past + acts == past;
    } else {
      var before, last := acts[..|acts| - 1], acts[|acts| - 1];
      OthersLeave(past, before, t);
      assert past + acts == (past + before) + [last];
      RunStep(Init(), past + before, last);
      RunKeepsInv(past + before);
      assert last in acts;
      OtherLeaves(Run(Init(), past + before), last, t);
    }
  }

  lemma OtherLeaves<V>(s: State<V>, a: Action<V>, t: Token)
    requires Inv(s) && !Mine(a, t)
    ensures t in s.calls <==> t in Step(s, a).calls
    ensures t in s.calls ==> Step(s, a).calls[t] == s.calls[t]
    ensures t in s.calls && LetGo(s, t) ==> LetGo(Step(s, a), t)
  {
    var s' := Step(s, a);
    if a.On? && a.token in s.calls {
      OwnerAfter(s, a.token, a.op);
    }
  }

  lemma OwnerAfter<V>(s: State<V>, u: Token, op: Op<V>)
    requires |s.hist| > 0 && u in s.calls
    ensures var s' := StepOn(s, u, op);
      && s'.calls.Keys == s.calls.Keys
      && (forall t :: t in s.calls && t != u ==> s'.calls[t] == s.calls[t])
      && (s'.row.Some? ==> s.row.Some?)
      && (s'.row.Some? ==> s'.row.value.lockToken in {s.row.value.lockToken, None, Some(u)})
  {
  }

  class KafkaIdempotentEventProcessor<V(==)> {
    /** The world one inbox row lives in: the row, its calls and its history. */
    var world: State<V>
    /** Every action so far, by this call or any other. */
    ghost var past: seq<Action<V>>

    ghost predicate Valid()
      reads this
    {
      world == Run(Init(), past)
    }

    constructor ()
      ensures Valid() && past == []
    {
      world := Init();
      past := [];
    }

    /** Other calls run while call `t` waits. */
    method Others(acts: seq<Action<V>>, t: Token)
      requires Valid()
      requires forall a :: a in acts ==> !Mine(a, t)
      modifies this
      ensures Valid() && past == old(past) + acts
      ensures t in old(world).calls <==> t in world.calls
      ensures t in world.calls ==> world.calls[t] == old(world).calls[t]
      ensures t in world.calls && LetGo(old(world), t) ==> LetGo(world, t)
    {
      for i := 0 to |acts|
        invariant past == old(past) + acts[..i] && Valid()
      {
        RunStep(Init(), past, acts[i]);
        world := Step(world, acts[i]);
        past := past + [acts[i]];
      }
      assert acts[..|acts|] == acts;
      OthersLeave(old(past), acts, t);
    }

    /** One await of call `t`. */
    method Await(t: Token, op: Op<V>)
      requires Valid() && t in world.calls
      modifies this
      ensures Valid() && past == old(past) + [On(t, op)]
      ensures t in world.calls && Flows(old(world).calls[t].pc, op, world.calls[t].pc)
      ensures op == Release(NoFault) && old(world).calls[t].pc.Releasing? ==> LetGo(world, t)
      ensures op == Complete(NoFault) && old(world).calls[t].pc.Effected? && world.calls[t].pc.Returned?
        ==> LetGo(world, t)
      ensures world.calls[t].pc.Updating? || world.calls[t].pc.Selecting? ==> LetGo(world, t)
      ensures op == Update(NoFault) && old(world).calls[t].pc.Updating? && !world.calls[t].pc.Granted?
        ==> LetGo(world, t)
      ensures op == Select(NoFault) && old(world).calls[t].pc.Selecting? ==> LetGo(world, t)
    {
      RunKeepsInv(past);
      AwaitFlows(world, t, op);
      AwaitLetsGo(world, t, op);
      RunStep(Init(), past, On(t, op));
      world := Step(world, On(t, op));
      past := past + [On(t, op)];
    }

    /** First half of the try block: a result that is in the row, or an error. */
    method PrepareResult(t: Token, ghost lease: Time, env: Environment<V>)
      requires Valid() && t in world.calls && world.calls[t].pc.Granted?
      requires forall i, a :: a in env.others(i) ==> !Mine(a, t)
      modifies this
      ensures Valid() && Went(old(past), past, t, lease, env)
      ensures t in world.calls && (world.calls[t].pc.Ready? || world.calls[t].pc.Releasing?)
    {
      Others(env.others(3), t);
      Await(t, Prepare(env.prepared));
      if world.calls[t].pc.Saving? {
        Others(env.others(4), t);
        Await(t, Save(env.fault(4)));
      }
    }

    method RunEffect(t: Token, ghost lease: Time, env: Environment<V>)
      requires Valid() && t in world.calls && world.calls[t].pc.Ready?
      requires forall i, a :: a in env.others(i) ==> !Mine(a, t)
      modifies this
      ensures Valid() && Went(old(past), past, t, lease, env)
      ensures t in world.calls && (world.calls[t].pc.Effected? || world.calls[t].pc.Releasing?)
    {
      Others(env.others(5), t);
      Await(t, StartEffect);
      Others(env.others(6), t);
      Await(t, EndEffect(env.effectOk));
    }

    /** The end of the try block. */
    method MarkDone(t: Token, ghost lease: Time, env: Environment<V>)
      requires Valid() && t in world.calls && world.calls[t].pc.Effected?
      requires forall i, a :: a in env.others(i) ==> !Mine(a, t)
      modifies this
      ensures Valid() && Went(old(past), past, t, lease, env)
      ensures t in world.calls && (world.calls[t].pc.Releasing? || world.calls[t].pc.Returned?)
      ensures var pc := world.calls[t].pc; pc.Returned? ==> !pc.duplicate && AnsweredFirst(world, t, pc.answer)
      ensures env.fault(7).NoFault? && world.calls[t].pc.Returned? ==> LetGo(world, t)
    {
      Others(env.others(7), t);
      Await(t, Complete(env.fault(7)));
      if world.calls[t].pc.Returned? {
        RunKeepsInv(past);
        AnswersMean(world, t);
      }
    }

    /** The catch block. */
    method GiveUp(t: Token, ghost lease: Time, env: Environment<V>)
      requires Valid() && t in world.calls && world.calls[t].pc.Releasing?
      requires forall i, a :: a in env.others(i) ==> !Mine(a, t)
      modifies this
      ensures Valid() && Went(old(past), past, t, lease, env)
      ensures t in world.calls && world.calls[t].pc.Stopped?
      ensures env.fault(8).NoFault? ==> LetGo(world, t)
    {
      Others(env.others(8), t);
      Await(t, Release(env.fault(8)));
    }

    /** The try block, entered with a lock token, and its catch block. */
    method PrepareAndEffect(t: Token, ghost lease: Time, env: Environment<V>) returns (r: Outcome<V>)
      requires Valid() && t in world.calls && world.calls[t].pc.Granted?
      requires forall i, a :: a in env.others(i) ==> !Mine(a, t)
      modifies this
      ensures Valid() && Went(old(past), past, t, lease, env)
      ensures t in world.calls && Over(world.calls[t].pc)
      ensures r == AnswerOf(world.calls[t].pc)
      ensures r.Answer? ==> !r.duplicate && AnsweredFirst(world, t, r.result)
      ensures Faultless(env) ==> LetGo(world, t)
    {
      PrepareResult(t, lease, env);
      if world.calls[t].pc.Ready? {
        RunEffect(t, lease, env);
        if world.calls[t].pc.Effected? {
          MarkDone(t, lease, env);
          if world.calls[t].pc.Returned? {
            return Answer(false, world.calls[t].pc.answer);
          }
        }
      }
      GiveUp(t, lease, env);
      r := Threw;
    }

    /** Begins the claim transaction with its insert. */
    method BeginClaim(t: Token, lease: Time, fault: Fault)
      requires Valid() && t !in world.calls
      modifies this
      ensures Valid() && past == old(past) + [Insert(t, lease, fault)]
      ensures t in world.calls
      ensures var pc := world.calls[t].pc; pc.Granted? || pc.Updating? || pc.Stopped?
      ensures fault.NoFault? && !world.calls[t].pc.Granted? ==> world.calls[t].pc.Updating? && LetGo(world, t)
    {
      RunKeepsInv(past);
      RunStep(Init(), past, Insert(t, lease, fault));
      world := Step(world, Insert(t, lease, fault));
      past := past + [Insert(t, lease, fault)];
      RunKeepsInv(past);
      if world.calls[t].pc.Updating? {
        OwnersWereGranted(world, t);
      }
    }

    /** The rest of the claim transaction, after the insert met a conflict. */
    method FinishClaim(t: Token, ghost lease: Time, env: Environment<V>)
      requires Valid() && t in world.calls && world.calls[t].pc.Updating? && LetGo(world, t)
      requires forall i, a :: a in env.others(i) ==> !Mine(a, t)
      modifies this
      ensures Valid() && Went(old(past), past, t, lease, env)
      ensures t in world.calls
      ensures var pc := world.calls[t].pc; pc.Granted? || pc.Stopped? || (pc.Returned? && pc.duplicate)
      ensures Faultless(env) && !world.calls[t].pc.Granted? ==> LetGo(world, t)
    {
      Others(env.others(1), t);
      Await(t, Update(env.fault(1)));
      if world.calls[t].pc.Selecting? {
        Others(env.others(2), t);
        Await(t, Select(env.fault(2)));
      }
    }

    /** Goes through the awaits of the protocol until the call is over and returns its answer: at
        most once with `duplicate == false` per incarnation of the row. It never leaves a lease
        behind unless a connection broke. */
    method Process(t: Token, lease: Time, env: Environment<V>) returns (r: Outcome<V>)
      requires Valid() && t !in world.calls
      requires forall i, a :: a in env.others(i) ==> !Mine(a, t)
      modifies this
      ensures Valid() && Went(old(past), past, t, lease, env)
      ensures t in world.calls && Over(world.calls[t].pc)
      ensures r == AnswerOf(world.calls[t].pc)
      ensures r.Answer? && !r.duplicate ==> AnsweredFirst(world, t, r.result)
      ensures r.Answer? && r.duplicate ==> AnsweredAgain(world, t, r.result)
      ensures Faultless(env) ==> LetGo(world, t)
    {
      Others(env.others(0), t);
      BeginClaim(t, lease, env.fault(0));
      if world.calls[t].pc.Updating? {
        FinishClaim(t, lease, env);
      }
      if world.calls[t].pc.Granted? {
        r := PrepareAndEffect(t, lease, env);
      } else if world.calls[t].pc.Returned? {
        RunKeepsInv(past);
        AnswersMean(world, t);
        r := Answer(true, world.calls[t].pc.answer);
      } else {
        r := Threw;
      }
    }
  }
}
