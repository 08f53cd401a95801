/** How many messages one failing source message can cause when several consumer
    groups share the retry topics. Every group subscribes to every stage, and a
    group that has no handler for the original topic forwards the message like any
    other failure. */
module RetryStorm {
  import opened Common
  import opened RetryPolicy

  /** A message on its way to one group. */
  datatype Delivery = Delivery(group: nat, message: Message)

  datatype Storm = Storm(inflight: seq<Delivery>, published: nat)

  /** How a group's one delivery of a message ends. */
  datatype Result = Handled | Failed(failure: Failure)

  datatype Action = Deliver(index: nat, result: Result)

  function ToEveryGroup(groups: nat, m: Message): (r: seq<Delivery>)
    ensures |r| == groups
    ensures forall i :: 0 <= i < groups ==> r[i] == Delivery(i, m)
  {
    seq(groups, g requires 0 <= g < groups => Delivery(g, m))
  }

  function Start(groups: nat, m: Message): Storm {
    Storm(ToEveryGroup(groups, m), 0)
  }

  /** The error of an unsupported topic is thrown on: nothing is published. */
  function Step(c: Config, groups: nat, s: Storm, a: Action): Storm
    requires c.sourceTopics != [] && a.index < |s.inflight|
  {
    var rest := s.inflight[..a.index] + s.inflight[a.index + 1..];
    match a.result
    case Handled => Storm(rest, s.published)
    case Failed(f) =>
      match Dispatch(c, s.inflight[a.index].message, f)
      case None => Storm(rest, s.published)
      case Some(x) => Storm(rest + ToEveryGroup(groups, x), s.published + 1)
  }

  /** `None` when an action names a delivery that does not exist. */
  function Run(c: Config, groups: nat, s: Storm, actions: seq<Action>): Option<Storm>
    requires c.sourceTopics != []
  {
    if actions == [] then Some(s)
    else
      match Run(c, groups, s, actions[..|actions| - 1])
      case None => None
      case Some(t) =>
        var a := actions[|actions| - 1];
        if a.index < |t.inflight| then Some(Step(c, groups, t, a)) else None
  }

  // --------------------------------------------------------------------- weights

  /** Messages one delivery can still cause `left` failures before the dead-letter topic. */
  function Cost(groups: nat, left: nat): nat {
    if left == 0 then 0 else 1 + groups * Cost(groups, left - 1)
  }

  function Weight(c: Config, groups: nat, m: Message): nat
    requires c.sourceTopics != []
  {
    if c.Supports(m.topic, m.headers) then Cost(groups, |c.stages| - c.StageIndex(m.topic)) else 0
  }

  function Pending(c: Config, groups: nat, ds: seq<Delivery>): nat
    requires c.sourceTopics != []
  {
    if ds == [] then 0
    else Pending(c, groups, ds[..|ds| - 1]) + Weight(c, groups, ds[|ds| - 1].message)
  }

  /** Published so far and still to be published. */
  function Total(c: Config, groups: nat, s: Storm): nat
    requires c.sourceTopics != []
  {
    s.published + Pending(c, groups, s.inflight)
  }

  lemma {:induction false} PendingAppend(c: Config, groups: nat, a: seq<Delivery>, b: seq<Delivery>)
    requires c.sourceTopics != []
    ensures Pending(c, groups, a + b) == Pending(c, groups, a) + Pending(c, groups, b)
  {
    if b == [] {
      assert a + b == a;
    } else {
      var init := b[..|b| - 1];
      PendingAppend(c, groups, a, init);
      assert (a + b)[..|a + b| - 1] == a + init;
    }
  }

  lemma {:induction false} PendingEverywhere(c: Config, groups: nat, n: nat, m: Message)
    requires c.sourceTopics != []
    ensures Pending(c, groups, ToEveryGroup(n, m)) == n * Weight(c, groups, m)
  {
    if n > 0 {
      PendingEverywhere(c, groups, n - 1, m);
      assert ToEveryGroup(n, m)[..n - 1] == ToEveryGroup(n - 1, m);
    }
  }

  lemma PendingWithout(c: Config, groups: nat, ds: seq<Delivery>, i: nat)
    requires c.sourceTopics != [] && i < |ds|
    ensures Pending(c, groups, ds) == Pending(c, groups, ds[..i] + ds[i + 1..]) + Weight(c, groups, ds[i].message)
  {
    PendingAppend(c, groups, ds[..i], ds[i + 1..]);
    PendingAppend(c, groups, ds[..i + 1], ds[i + 1..]);
    assert ds == ds[..i + 1] + ds[i + 1..];
    assert ds[..i + 1][..i] == ds[..i];
  }

  // -------------------------------------------------------------------- one step

  /** Where retries end: nobody retries the records of the dead-letter topic. */
  ghost predicate Ends(c: Config) {
    && Chained(c)
    && c.deadLetterTopic !in c.sourceTopics
    && forall s :: s in c.stages ==> s.topic != c.deadLetterTopic
  }

  lemma NextStageWeighs(c: Config, groups: nat, m: Message, x: Message)
    requires Chained(c) && c.Supports(m.topic, m.headers)
    requires c.StageIndex(m.topic) + 1 < |c.stages| && x.topic == c.stages[c.StageIndex(m.topic) + 1].topic
    ensures 1 + Pending(c, groups, ToEveryGroup(groups, x)) == Weight(c, groups, m)
  {
    var next := c.StageIndex(m.topic) + 1;
    StageIndexIs(c, next);
    StageSupported(c, c.stages[next].topic, x.headers);
    PendingEverywhere(c, groups, groups, x);
    assert Weight(c, groups, x) == Cost(groups, |c.stages| - next);
  }

  lemma DeadLetterWeighs(c: Config, groups: nat, m: Message, x: Message)
    requires Ends(c) && c.Supports(m.topic, m.headers) && x.topic == c.deadLetterTopic
    ensures Pending(c, groups, ToEveryGroup(groups, x)) == 0
    ensures 1 <= Weight(c, groups, m)
    ensures c.StageIndex(m.topic) + 1 == |c.stages| ==> Weight(c, groups, m) == 1
  {
    DeadLetterWeighsNothing(c, groups, x);
    PendingEverywhere(c, groups, groups, x);
    if c.StageIndex(m.topic) + 1 == |c.stages| {
      assert Cost(groups, 1) == 1 + groups * Cost(groups, 0);
    }
  }

  lemma DeadLetterWeighsNothing(c: Config, groups: nat, x: Message)
    requires Ends(c) && x.topic == c.deadLetterTopic
    ensures Weight(c, groups, x) == 0
  {
    forall k | 0 <= k < |c.stages| ensures c.stages[k].topic != x.topic {
      assert c.stages[k] in c.stages;
    }
    assert c.StageIndex(x.topic) == -1;
  }

  lemma HandledWeighs(c: Config, groups: nat, s: Storm, a: Action)
    requires c.sourceTopics != [] && a.index < |s.inflight| && a.result.Handled?
    ensures var t := Step(c, groups, s, a);
      && Total(c, groups, t) <= Total(c, groups, s)
  {
    PendingWithout(c, groups, s.inflight, a.index);
  }

  lemma ForwardWeighs(c: Config, groups: nat, m: Message, f: Failure, x: Message)
    requires Ends(c) && Dispatch(c, m, f) == Some(x)
    ensures 1 + Pending(c, groups, ToEveryGroup(groups, x)) <= Weight(c, groups, m)
    ensures f.error.Retryable? ==> 1 + Pending(c, groups, ToEveryGroup(groups, x)) == Weight(c, groups, m)
  {
    DispatchLeadsTo(c, m, f);
    if f.error.NonRetryable? || c.StageIndex(m.topic) + 1 == |c.stages| {
      DeadLetterWeighs(c, groups, m, x);
    } else {
      NextStageWeighs(c, groups, m, x);
    }
  }

  lemma ThrownWeighsNothing(c: Config, groups: nat, m: Message, f: Failure)
    requires c.sourceTopics != [] && Dispatch(c, m, f) == None
    ensures Weight(c, groups, m) == 0
  {
    DispatchLeadsTo(c, m, f);
  }

  lemma FailureWeighs(c: Config, groups: nat, s: Storm, a: Action)
    requires Ends(c) && a.index < |s.inflight| && a.result.Failed?
    ensures var t := Step(c, groups, s, a);
      && Total(c, groups, t) <= Total(c, groups, s)
      && (a.result.failure.error.Retryable? ==> Total(c, groups, t) == Total(c, groups, s))
  {
    var m, f := s.inflight[a.index].message, a.result.failure;
    var x := Dispatch(c, m, f);
    if x.None? {
      ThrownWeighsNothing(c, groups, m, f);
      PendingWithout(c, groups, s.inflight, a.index);
    } else {
      ForwardWeighs(c, groups, m, f, x.value);
      PendingReplaced(c, groups, s.inflight, a.index, ToEveryGroup(groups, x.value));
    }
  }

  lemma PendingReplaced(c: Config, groups: nat, ds: seq<Delivery>, i: nat, more: seq<Delivery>)
    requires c.sourceTopics != [] && i < |ds|
    ensures Pending(c, groups, ds[..i] + ds[i + 1..] + more) + Weight(c, groups, ds[i].message)
         == Pending(c, groups, ds) + Pending(c, groups, more)
  {
    PendingWithout(c, groups, ds, i);
    PendingAppend(c, groups, ds[..i] + ds[i + 1..], more);
  }

  // ---------------------------------------------------------------------- all runs

  ghost predicate AllFail(actions: seq<Action>) {
    forall i :: 0 <= i < |actions| ==> actions[i].result.Failed? && actions[i].result.failure.error.Retryable?
  }

  function Copies(groups: nat, n: nat): nat {
    if n == 0 then 0 else Copies(groups, n - 1) + groups
  }

  lemma {:induction false} CopiesGrow(groups: nat, n: nat, k: nat)
    requires n <= k
    ensures Copies(groups, n) == groups * n
    ensures Copies(groups, n) <= Copies(groups, k)
  {
    if k > n {
      CopiesGrow(groups, n, k - 1);
    } else if n > 0 {
      CopiesGrow(groups, n - 1, n - 1);
    }
  }

  lemma MostCopies(groups: nat, n: nat, most: nat)
    requires n <= most
    ensures Copies(groups, n) <= groups * most
  {
    CopiesGrow(groups, n, most);
    CopiesGrow(groups, most, most);
  }

  lemma {:induction false} RunWeighs(c: Config, groups: nat, s: Storm, actions: seq<Action>)
    requires Ends(c) && Run(c, groups, s, actions).Some?
    ensures var t := Run(c, groups, s, actions).value;
      && Total(c, groups, t) <= Total(c, groups, s)
      && (AllFail(actions) ==> Total(c, groups, t) == Total(c, groups, s))
  {
    if actions != [] {
      var init, a := actions[..|actions| - 1], actions[|actions| - 1];
      RunWeighs(c, groups, s, init);
      var t := Run(c, groups, s, init).value;
      if a.result.Handled? {
        HandledWeighs(c, groups, t, a);
      } else {
        FailureWeighs(c, groups, t, a);
      }
    }
  }

  /** Every delivery made or still to make stems from the first message or from a published one. */
  ghost predicate Counted(groups: nat, made: nat, t: Storm) {
    |t.inflight| + made == Copies(groups, 1 + t.published)
  }

  lemma StepCounts(c: Config, groups: nat, s: Storm, a: Action, made: nat)
    requires Chained(c) && a.index < |s.inflight| && Counted(groups, made, s)
    ensures Counted(groups, made + 1, Step(c, groups, s, a))
  {
    var t := Step(c, groups, s, a);
    assert if t.published == s.published then |t.inflight| + 1 == |s.inflight|
           else t.published == s.published + 1 && |t.inflight| + 1 == |s.inflight| + groups;
  }

  lemma {:induction false} DeliveriesAdd(c: Config, groups: nat, m: Message, actions: seq<Action>)
    requires Chained(c) && Run(c, groups, Start(groups, m), actions).Some?
    ensures Counted(groups, |actions|, Run(c, groups, Start(groups, m), actions).value)
  {
    if actions == [] {
      assert Copies(groups, 1) == Copies(groups, 0) + groups;
    } else {
      var init := actions[..|actions| - 1];
      DeliveriesAdd(c, groups, m, init);
      StepCounts(c, groups, Run(c, groups, Start(groups, m), init).value, actions[|actions| - 1], |init|);
    }
  }

  /** groups + groups^2 + ... + groups^n */
  function PowerSum(groups: nat, n: nat): nat {
    if n == 0 then 0 else PowerSum(groups, n - 1) + Power(groups, n)
  }

  function Power(b: nat, e: nat): nat {
    if e == 0 then 1 else b * Power(b, e - 1)
  }

  lemma {:induction false} PowerSumShift(groups: nat, n: nat)
    ensures PowerSum(groups, n + 1) == groups * (1 + PowerSum(groups, n))
  {
    if n == 0 {
      assert Power(groups, 1) == groups * Power(groups, 0);
    } else {
      PowerSumShift(groups, n - 1);
      assert Power(groups, n + 1) == groups * Power(groups, n);
      Distribute(groups, 1 + PowerSum(groups, n - 1), Power(groups, n));
    }
  }

  lemma Distribute(g: int, a: int, b: int)
    ensures g * (a + b) == g * a + g * b
  {
  }

  lemma {:induction false} CostIsPowerSum(groups: nat, left: nat)
    ensures groups * Cost(groups, left) == PowerSum(groups, left)
  {
    if left > 0 {
      CostIsPowerSum(groups, left - 1);
      PowerSumShift(groups, left - 1);
    }
  }

  ghost predicate SourceMessage(c: Config, m: Message) {
    m.topic in c.sourceTopics && forall s :: s in c.stages ==> s.topic != m.topic
  }

  lemma SourceWeighs(c: Config, groups: nat, m: Message)
    requires Ends(c) && SourceMessage(c, m)
    ensures Pending(c, groups, ToEveryGroup(groups, m)) <= PowerSum(groups, |c.stages| + 1)
    ensures c.Supports(m.topic, m.headers) ==>
              Pending(c, groups, ToEveryGroup(groups, m)) == PowerSum(groups, |c.stages| + 1)
  {
    forall k | 0 <= k < |c.stages| ensures c.stages[k].topic != m.topic {
      assert c.stages[k] in c.stages;
    }
    assert c.StageIndex(m.topic) == -1;
    PendingEverywhere(c, groups, groups, m);
    CostIsPowerSum(groups, |c.stages| + 1);
  }

  /** At most G + G^2 + ... + G^(n+1) messages are published, whatever fails. */
  lemma StormIsBounded(c: Config, groups: nat, m: Message, actions: seq<Action>)
    requires Ends(c) && SourceMessage(c, m)
    requires Run(c, groups, Start(groups, m), actions).Some?
    ensures Run(c, groups, Start(groups, m), actions).value.published <= PowerSum(groups, |c.stages| + 1)
  {
    RunWeighs(c, groups, Start(groups, m), actions);
    SourceWeighs(c, groups, m);
  }

  lemma DeliveriesBounded(groups: nat, made: nat, t: Storm, n: nat)
    requires Counted(groups, made, t) && t.published <= PowerSum(groups, n)
    ensures made <= PowerSum(groups, n + 1)
  {
    MostCopies(groups, 1 + t.published, 1 + PowerSum(groups, n));
    PowerSumShift(groups, n);
  }

  /** Every run ends: it has at most G + G^2 + ... + G^(n+2) deliveries. */
  lemma StormEnds(c: Config, groups: nat, m: Message, actions: seq<Action>)
    requires Ends(c) && SourceMessage(c, m)
    requires Run(c, groups, Start(groups, m), actions).Some?
    ensures |actions| <= PowerSum(groups, |c.stages| + 2)
  {
    DeliveriesAdd(c, groups, m, actions);
    StormIsBounded(c, groups, m, actions);
    var t := Run(c, groups, Start(groups, m), actions).value;
    DeliveriesBounded(groups, |actions|, t, |c.stages| + 1);
  }

  /** The bound is the best one: if every delivery of a supported message fails until
      nothing is on its way, exactly that many messages were published. */
  lemma StormReachesTheBound(c: Config, groups: nat, m: Message, actions: seq<Action>)
    requires Ends(c) && SourceMessage(c, m) && c.Supports(m.topic, m.headers) && AllFail(actions)
    requires Run(c, groups, Start(groups, m), actions).Some?
    requires Run(c, groups, Start(groups, m), actions).value.inflight == []
    ensures Run(c, groups, Start(groups, m), actions).value.published == PowerSum(groups, |c.stages| + 1)
  {
    RunWeighs(c, groups, Start(groups, m), actions);
    SourceWeighs(c, groups, m);
  }

  /** The run publishes G + G^2 + ... + G^(n+1) messages. */
  ghost predicate MeetsTheBound(c: Config, groups: nat, m: Message, actions: seq<Action>)
    requires c.sourceTopics != []
  {
    var t := Run(c, groups, Start(groups, m), actions);
    t.Some? && t.value.published == PowerSum(groups, |c.stages| + 1)
  }

  function FailFirst(f: Failure): Action {
    Deliver(0, Failed(f))
  }

  /** Any run of failing deliveries can be continued until nothing is on its way. */
  lemma {:induction false} FailUntilQuiet(c: Config, groups: nat, m: Message, actions: seq<Action>, f: Failure)
    returns (all: seq<Action>)
    requires Ends(c) && SourceMessage(c, m) && AllFail(actions) && f.error.Retryable?
    requires Run(c, groups, Start(groups, m), actions).Some?
    ensures AllFail(all) && Run(c, groups, Start(groups, m), all).Some?
    ensures Run(c, groups, Start(groups, m), all).value.inflight == []
    decreases PowerSum(groups, |c.stages| + 2) + 1 - |actions|
  {
    StormEnds(c, groups, m, actions);
    all := actions;
    if Run(c, groups, Start(groups, m), actions).value.inflight != [] {
      var more := actions + [FailFirst(f)];
      assert more[..|actions|] == actions;
      StormEnds(c, groups, m, more);
      all := FailUntilQuiet(c, groups, m, more, f);
    }
  }

  /** The bound is reached: some run of a supported source message publishes exactly that many. */
  lemma BoundIsReached(c: Config, groups: nat, m: Message)
    requires Ends(c) && SourceMessage(c, m) && c.Supports(m.topic, m.headers)
    ensures exists actions :: MeetsTheBound(c, groups, m, actions)
  {
    var f := Failure(Retryable("", ""), "", 0, "", map[]);
    var actions := FailUntilQuiet(c, groups, m, [], f);
    StormReachesTheBound(c, groups, m, actions);
    assert MeetsTheBound(c, groups, m, actions);
  }
}
