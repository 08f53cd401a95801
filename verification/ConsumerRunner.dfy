/** One consumer group: packages/kafka/src/consumer/kafka-consumer-runner.ts over an
    append-only log with redelivery of everything that is not acknowledged. */
module ConsumerRunner {
  import opened Common
  import opened RetryPolicy

  /** `parents[j]` is the message whose failure caused message `j`, None for a message
      from outside. `returned`: some call of `eachMessage` for it returned normally. */
  datatype Group = Group(log: seq<Message>, parents: seq<Option<nat>>, handled: set<nat>, returned: set<nat>,
                         acked: set<nat>)

  /** How one call of `eachMessage` goes. The process may die at any await: before the
      handler is done (`!succeeds`, `!appended`), between the append and its
      acknowledgement or before the call returns (`!survives`). */
  datatype Attempt = Attempt(decodes: bool, succeeds: bool, failure: Failure, appended: bool, survives: bool)

  datatype Action =
    | Produce(message: Message)
    | EachMessage(offset: nat, attempt: Attempt)
    | Commit(offset: nat)

  datatype Setup = Setup(config: Config, registrations: seq<seq<Topic>>)

  const EMPTY := Group([], [], {}, {}, {})

  function Received(u: Setup, g: Group, offset: nat, a: Attempt): Group
    requires u.config.sourceTopics != [] && offset < |g.log|
  {
    var m := g.log[offset];
    if !a.decodes then g
    else if a.succeeds && ResolveHandler(u.registrations, m.topic, m.headers).Some? then
      g.(handled := g.handled + {offset}, returned := if a.survives then g.returned + {offset} else g.returned)
    else
      match Dispatch(u.config, m, a.failure)
      case None => g
      case Some(x) =>
        if !a.appended then g
        else g.(log := g.log + [x], parents := g.parents + [Some(offset)],
                returned := if a.survives then g.returned + {offset} else g.returned)
  }

  /** An action that does not apply changes nothing. */
  function Step(u: Setup, g: Group, a: Action): Group
    requires u.config.sourceTopics != []
  {
    match a
    case Produce(m) => g.(log := g.log + [m], parents := g.parents + [None])
    case EachMessage(offset, attempt) => if offset < |g.log| then Received(u, g, offset, attempt) else g
    case Commit(offset) => if offset in g.returned then g.(acked := g.acked + {offset}) else g
  }

  function Run(u: Setup, g: Group, actions: seq<Action>): Group
    requires u.config.sourceTopics != []
  {
    if actions == [] then g else Step(u, Run(u, g, actions[..|actions| - 1]), actions[|actions| - 1])
  }

  // ------------------------------------------------------------------ no message is lost

  /** A dead-letter record that holds the event of `m`. */
  predicate Records(c: Config, x: Message, m: Message) {
    x.topic == c.deadLetterTopic && x.event.payload.DeadLetter? && x.event.payload.rawEvent == m.event
  }

  predicate Carries(c: Config, x: Message, m: Message) {
    x.event == m.event || Records(c, x, m)
  }

  ghost predicate HasSuccessor(g: Group, i: nat) {
    exists j :: 0 <= j < |g.parents| && g.parents[j] == Some(i)
  }

  ghost predicate Inv(u: Setup, g: Group) {
    && |g.parents| == |g.log|
    && (forall j :: 0 <= j < |g.log| && g.parents[j].Some? ==> g.parents[j].value < j)
    && (forall j :: 0 <= j < |g.log| && g.parents[j].Some? ==> Carries(u.config, g.log[j], g.log[g.parents[j].value]))
    && (forall i :: i in g.returned ==> i < |g.log| && (i in g.handled || HasSuccessor(g, i)))
    && g.acked <= g.returned
  }

  lemma DispatchCarries(c: Config, m: Message, f: Failure)
    requires c.sourceTopics != []
    ensures Dispatch(c, m, f).Some? ==> Carries(c, Dispatch(c, m, f).value, m)
  {
  }

  lemma AppendKeeps(u: Setup, g: Group, x: Message, parent: Option<nat>)
    requires Inv(u, g)
    requires parent.Some? ==> parent.value < |g.log| && Carries(u.config, x, g.log[parent.value])
    ensures var h := g.(log := g.log + [x], parents := g.parents + [parent]);
      Inv(u, h) && (parent.Some? ==> Inv(u, h.(returned := h.returned + {parent.value})))
  {
    var h := g.(log := g.log + [x], parents := g.parents + [parent]);
    forall i | i in g.returned && HasSuccessor(g, i)
      ensures HasSuccessor(h, i)
    {
      var j :| 0 <= j < |g.parents| && g.parents[j] == Some(i);
      assert h.parents[j] == Some(i);
    }
    assert h.parents[|g.parents|] == parent;
  }

  lemma StepKeepsInv(u: Setup, g: Group, a: Action)
    requires u.config.sourceTopics != [] && Inv(u, g)
    ensures Inv(u, Step(u, g, a))
  {
    match a
    case Produce(m) => AppendKeeps(u, g, m, None);
    case Commit(offset) =>
    case EachMessage(offset, attempt) =>
      if offset < |g.log| {
        ReceivedKeeps(u, g, offset, attempt);
      }
  }

  lemma ReceivedKeeps(u: Setup, g: Group, offset: nat, a: Attempt)
    requires u.config.sourceTopics != [] && Inv(u, g) && offset < |g.log|
    ensures Inv(u, Received(u, g, offset, a))
  {
    var m := g.log[offset];
    if a.decodes && !(a.succeeds && ResolveHandler(u.registrations, m.topic, m.headers).Some?) {
      var x := Dispatch(u.config, m, a.failure);
      DispatchCarries(u.config, m, a.failure);
      if x.Some? {
        AppendKeeps(u, g, x.value, Some(offset));
      }
    }
  }

  lemma {:induction false} RunKeepsInv(u: Setup, actions: seq<Action>)
    requires u.config.sourceTopics != []
    ensures Inv(u, Run(u, EMPTY, actions))
  {
    if actions != [] {
      RunKeepsInv(u, actions[..|actions| - 1]);
      StepKeepsInv(u, Run(u, EMPTY, actions[..|actions| - 1]), actions[|actions| - 1]);
    }
  }

  /** `j` is `i` itself or goes back to it, from parent to parent. */
  ghost predicate Descends(parents: seq<Option<nat>>, i: nat, j: nat)
    decreases j
  {
    || i == j
    || (j < |parents| && parents[j].Some? && parents[j].value < j && Descends(parents, i, parents[j].value))
  }

  lemma {:induction false} DescendsOn(parents: seq<Option<nat>>, i: nat, j: nat, k: nat)
    requires Descends(parents, i, j) && Descends(parents, j, k)
    ensures Descends(parents, i, k)
    decreases k
  {
    if j != k {
      DescendsOn(parents, i, j, parents[k].value);
    }
  }

  /** `j`, which came from `i`, keeps its event: as a message that was handled or will be
      delivered again, or as a dead-letter record. */
  ghost predicate Keeps(u: Setup, g: Group, i: nat, j: nat)
    requires i < |g.log|
  {
    && i <= j < |g.log| && Descends(g.parents, i, j)
    && (|| (g.log[j].event == g.log[i].event && (j !in g.acked || j in g.handled))
        || Records(u.config, g.log[j], g.log[i]))
  }

  lemma {:induction false} Kept(u: Setup, g: Group, i: nat) returns (j: nat)
    requires Inv(u, g) && i < |g.log|
    ensures Keeps(u, g, i, j)
    decreases |g.log| - i
  {
    j := i;
    if i in g.acked && i !in g.handled {
      assert HasSuccessor(g, i);
      var child :| 0 <= child < |g.parents| && g.parents[child] == Some(i);
      j := child;
      if !Records(u.config, g.log[child], g.log[i]) {
        assert g.log[child].event == g.log[i].event;
        j := Kept(u, g, child);
        DescendsOn(g.parents, i, child, j);
      }
    }
  }

  /** At every point of every run each message is still to be delivered, was handled,
      or its event lives on in a message that came from it, or from one that did, and that is:
      or in a dead-letter record of one of them. */
  lemma NoMessageIsLost(u: Setup, actions: seq<Action>, i: nat)
    requires u.config.sourceTopics != []
    requires i < |Run(u, EMPTY, actions).log|
    ensures exists j :: Keeps(u, Run(u, EMPTY, actions), i, j)
  {
    RunKeepsInv(u, actions);
    var j := Kept(u, Run(u, EMPTY, actions), i);
  }

  /** A message is acknowledged only if its handler succeeded or a successor carries
      its event. */
  lemma AcknowledgedOnlyIf(u: Setup, actions: seq<Action>, i: nat)
    requires u.config.sourceTopics != [] && i in Run(u, EMPTY, actions).acked
    ensures var g := Run(u, EMPTY, actions);
      && |g.parents| == |g.log| && i < |g.log|
      && (|| i in g.handled
          || exists j :: i < j < |g.log| && g.parents[j] == Some(i) && Carries(u.config, g.log[j], g.log[i]))
  {
    RunKeepsInv(u, actions);
    var g := Run(u, EMPTY, actions);
    if i !in g.handled {
      assert HasSuccessor(g, i);
      var j :| 0 <= j < |g.parents| && g.parents[j] == Some(i);
      assert i < j < |g.log| && g.parents[j] == Some(i) && Carries(u.config, g.log[j], g.log[i]);
    }
  }

  /** A call returns normally exactly when its message was decoded and either its handler
      succeeded or the policy supports it and the successor was appended. */
  lemma ReturnsExactlyWhen(u: Setup, g: Group, i: nat, a: Attempt)
    requires u.config.sourceTopics != [] && i < |g.log| && i !in g.returned
    ensures var m := g.log[i];
      i in Received(u, g, i, a).returned <==>
      a.decodes && a.survives
      && ((a.succeeds && ResolveHandler(u.registrations, m.topic, m.headers).Some?)
          || (u.config.Supports(m.topic, m.headers) && a.appended))
  {
  }

  /** What a delivery leaves behind: a success is on record and sends nothing on; a failure of a
      supported message appends one message that carries its event, to the next stage or the
      dead-letter topic; nothing else happens. */
  lemma DeliveryLeaves(u: Setup, g: Group, i: nat, a: Attempt)
    requires u.config.sourceTopics != [] && i < |g.log|
    ensures var g', m := Received(u, g, i, a), g.log[i];
      var succeeds := a.decodes && a.succeeds && ResolveHandler(u.registrations, m.topic, m.headers).Some?;
      var forwards := a.decodes && !succeeds && a.appended && u.config.Supports(m.topic, m.headers);
      && g'.handled == (if succeeds then g.handled + {i} else g.handled) && g'.acked == g.acked
      && (!forwards ==> g'.log == g.log)
      && (forwards ==>
            && |g'.log| == |g.log| + 1 && g'.log[..|g.log|] == g.log && g'.parents == g.parents + [Some(i)]
            && Carries(u.config, g'.log[|g.log|], m)
            && var next := u.config.StageIndex(m.topic) + 1;
               g'.log[|g.log|].topic == if a.failure.error.NonRetryable? || next == |u.config.stages|
                                        then u.config.deadLetterTopic else u.config.stages[next].topic)
  {
    DispatchCarries(u.config, g.log[i], a.failure);
    DispatchLeadsTo(u.config, g.log[i], a.failure);
  }

  /** The offset of a message is committed exactly if its call has returned. */
  lemma CommittedExactlyWhen(u: Setup, g: Group, i: nat)
    requires u.config.sourceTopics != [] && i !in g.acked
    ensures i in Step(u, g, Commit(i)).acked <==> i in g.returned
    ensures Step(u, g, Commit(i)).log == g.log
  {
  }

  // ------------------------------------------------------------------- the runner

  /** The first of `topics` that some registration lists already. */
  function FirstRegistered(registrations: seq<seq<Topic>>, topics: seq<Topic>): Option<Topic> {
    if topics == [] then None
    else if RegistrationOf(registrations, topics[0]).Some? then Some(topics[0])
    else FirstRegistered(registrations, topics[1..])
  }

  lemma {:induction false} NoneRegistered(registrations: seq<seq<Topic>>, topics: seq<Topic>)
    requires FirstRegistered(registrations, topics).None?
    ensures forall t :: t in topics ==> RegistrationOf(registrations, t).None?
  {
    if topics != [] {
      NoneRegistered(registrations, topics[1..]);
      assert topics == [topics[0]] + topics[1..];
    }
  }

  lemma {:induction false} FirstRegisteredIsOne(registrations: seq<seq<Topic>>, topics: seq<Topic>)
    requires FirstRegistered(registrations, topics).Some?
    ensures FirstRegistered(registrations, topics).value in topics
  {
    if RegistrationOf(registrations, topics[0]).None? {
      FirstRegisteredIsOne(registrations, topics[1..]);
    }
  }

  /** No named topic has two handlers. */
  ghost predicate Disjoint(registrations: seq<seq<Topic>>) {
    forall i, j, t :: 0 <= i < j < |registrations| && t in registrations[i] ==> t !in registrations[j]
  }

  ghost predicate AllNamed(registrations: seq<seq<Topic>>) {
    forall i :: 0 <= i < |registrations| ==> "" !in registrations[i]
  }

  const HEARTBEAT_INTERVAL_MS := 3000

  class KafkaConsumerRunner {
    const config: Config
    var registrations: seq<seq<Topic>>
    var started: bool
    var group: Group

    ghost predicate Valid()
      reads this
    {
      && config.sourceTopics != []
      && Inv(Setup(config, registrations), group)
      && (AllNamed(registrations) ==> Disjoint(registrations))
    }

    constructor (config: Config)
      requires config.sourceTopics != []
      ensures Valid() && this.config == config && registrations == [] && !started && group == EMPTY
    {
      this.config := config;
      registrations, started, group := [], false, EMPTY;
    }

    /** Not `ok`: the call throws and nothing is registered. The duplicate is tested for
        truthiness, so an empty name hides the ones after it. */
    method Register(topics: seq<Topic>) returns (ok: bool)
      requires Valid()
      modifies this`registrations
      ensures Valid()
      ensures ok <==> !started && FirstRegistered(old(registrations), topics) in {None, Some("")}
      ensures registrations == if ok then old(registrations) + [topics] else old(registrations)
    {
      if started {
        return false;
      }
      var duplicate := FirstRegistered(registrations, topics);
      if duplicate.Some? && duplicate.value != "" {
        return false;
      }
      if duplicate.Some? {
        FirstRegisteredIsOne(registrations, topics);
        assert "" in (registrations + [topics])[|registrations|];
      } else {
        NoneRegistered(registrations, topics);
        forall i, t | 0 <= i < |registrations| && t in registrations[i] ensures t !in topics {
          RegistrationFound(registrations, t);
        }
        assert AllNamed(registrations + [topics]) ==> AllNamed(registrations) by {
          assert forall i :: 0 <= i < |registrations| ==> (registrations + [topics])[i] == registrations[i];
        }
      }
      registrations := registrations + [topics];
      ok := true;
    }

    method OnApplicationBootstrap()
      requires Valid()
      modifies this`started
      ensures Valid() && started == (old(started) || registrations != [])
    {
      if registrations == [] || started {
        return;
      }
      started := true;
    }

    /** Sleeps the delay in slices and calls the heartbeat after each of them. */
    method DelayWithHeartbeat(delayMs: nat) returns (slept: nat, longest: nat, heartbeats: nat)
      ensures slept == delayMs && longest <= 3000
      ensures heartbeats == (delayMs + 2999) / 3000
    {
      var remainingMs := delayMs;
      slept, longest, heartbeats := 0, 0, 0;
      while remainingMs > 0
        invariant remainingMs >= 0 && slept + remainingMs == delayMs && longest <= HEARTBEAT_INTERVAL_MS
        invariant
          || slept == HEARTBEAT_INTERVAL_MS * heartbeats
          || (remainingMs == 0
              && HEARTBEAT_INTERVAL_MS * (heartbeats - 1) < slept < HEARTBEAT_INTERVAL_MS * heartbeats)
      {
        var waitMs := if HEARTBEAT_INTERVAL_MS < remainingMs then HEARTBEAT_INTERVAL_MS else remainingMs;
        slept := slept + waitMs;
        longest := if waitMs > longest then waitMs else longest;
        remainingMs := remainingMs - waitMs;
        heartbeats := heartbeats + 1;
      }
    }

    /** The callback of the consumer loop for the message at `offset`; not `returned`: it throws or
        the process dies, and the message will be delivered again. */
    method EachMessage(offset: nat, a: Attempt) returns (returned: bool)
      requires Valid() && offset < |group.log|
      modifies this`group
      ensures Valid()
      ensures group == Received(Setup(config, registrations), old(group), offset, a)
      ensures returned ==> offset in group.returned
      ensures returned ==> offset in group.handled || HasSuccessor(group, offset)
      ensures !returned ==> group.returned == old(group).returned
    {
      ghost var u := Setup(config, registrations);
      StepKeepsInv(u, group, Action.EachMessage(offset, a));
      var m := group.log[offset];
      var slept, longest, heartbeats := DelayWithHeartbeat(config.DelayMs(m.topic));
      if !a.decodes {
        return false;
      }
      var handler := ResolveHandler(registrations, m.topic, m.headers);
      if handler.Some? && a.succeeds {
        group := group.(handled := group.handled + {offset});
      } else {
        if !config.Supports(m.topic, m.headers) {
          return false;
        }
        var x := Dispatch(config, m, a.failure).value;
        if !a.appended {
          return false;
        }
        group := group.(log := group.log + [x], parents := group.parents + [Some(offset)]);
        assert group.parents[|group.parents| - 1] == Some(offset);
      }
      if a.survives {
        group := group.(returned := group.returned + {offset});
      }
      returned := a.survives;
    }
  }
}
