/** The way of one message through the retry topics of one consumer group, up to
    its record in the dead-letter topic. */
module RetryChain {
  import opened Common
  import opened RetryPolicy
  import Decimal

  const MANAGED: set<string> := TRACE_HEADERS + {CORRELATION_ID, CAUSATION_ID, EVENT_ID, EVENT_TYPE, EVENT_VERSION,
                                                 RETRY_COUNT, ORIGINAL_TOPIC, FIRST_FAILED_AT, ERROR_CODE}

  /** Source, stage and dead-letter topics are different names. */
  ghost predicate Apart(c: Config) {
    && c.sourceTopics != [] && c.stages != []
    && (forall s :: s in c.stages ==> s.topic !in c.sourceTopics && s.topic != c.deadLetterTopic)
    && c.deadLetterTopic !in c.sourceTopics
  }

  /** And no two stages have the same one. */
  ghost predicate Separate(c: Config) {
    Apart(c) && Chained(c)
  }

  /** A message of a named source topic that has not failed yet. */
  ghost predicate Fresh(c: Config, m: Message) {
    && m.topic in c.sourceTopics && m.topic != ""
    && m.headers.Keys !! {RETRY_COUNT, ORIGINAL_TOPIC, FIRST_FAILED_AT, ERROR_CODE}
  }

  /** The trace context adds trace headers only. */
  ghost predicate Traced(fs: seq<Failure>) {
    forall i :: 0 <= i < |fs| ==> fs[i].trace.Keys <= TRACE_HEADERS
  }

  /** The message after these failures, each on the topic the previous one led to;
      None when the policy threw. */
  function After(c: Config, m: Message, fs: seq<Failure>): Option<Message>
    requires c.sourceTopics != []
  {
    if fs == [] then Some(m)
    else
      match After(c, m, fs[..|fs| - 1])
      case None => None
      case Some(x) => Dispatch(c, x, fs[|fs| - 1])
  }

  ghost predicate AllRetryable(fs: seq<Failure>) {
    forall i :: 0 <= i < |fs| ==> fs[i].error.Retryable?
  }

  /** The failures end the chain: the last one, and only that, is not retryable or
      happened on the last stage. */
  ghost predicate Ending(c: Config, fs: seq<Failure>) {
    && fs != [] && |fs| <= |c.stages| + 1
    && AllRetryable(fs[..|fs| - 1])
    && (fs[|fs| - 1].error.NonRetryable? || |fs| == |c.stages| + 1)
  }

  /** What the retry headers say after `fs`, and that the other ones are as before. */
  ghost predicate RetryHeaders(m0: Message, fs: seq<Failure>, x: Message)
    requires fs != []
  {
    && RETRY_COUNT in x.headers && Decimal.Parse(x.headers[RETRY_COUNT]) == Some(|fs|)
    && ORIGINAL_TOPIC in x.headers && x.headers[ORIGINAL_TOPIC] == m0.topic
    && FIRST_FAILED_AT in x.headers && x.headers[FIRST_FAILED_AT] == fs[0].now
    && ERROR_CODE in x.headers && x.headers[ERROR_CODE] == fs[|fs| - 1].error.code
    && x.headers - MANAGED == m0.headers - MANAGED
  }

  /** The key stays; a message without one gets the id of its event. */
  predicate Keyed(m0: Message, x: Message) {
    x.key == Some(match m0.key case Some(key) => key case None => m0.event.eventId)
  }

  /** The headers repeat the envelope of the event in the message and hold the trace of the failure. */
  ghost predicate Enveloped(x: Message, f: Failure) {
    && CORRELATION_ID in x.headers && x.headers[CORRELATION_ID] == x.event.correlationId
    && EVENT_ID in x.headers && x.headers[EVENT_ID] == x.event.eventId
    && EVENT_TYPE in x.headers && x.headers[EVENT_TYPE] == x.event.eventType
    && EVENT_VERSION in x.headers && Decimal.Parse(x.headers[EVENT_VERSION]) == Some(x.event.eventVersion)
    && ReadHeader(x.headers, CAUSATION_ID) == x.event.causationId
    && forall n :: n in f.trace ==> n in x.headers && x.headers[n] == f.trace[n]
  }

  lemma PublishEnvelopes(t: Topic, k: string, e: Event, h: Headers, f: Failure)
    requires f.trace.Keys <= TRACE_HEADERS
    ensures Enveloped(Publish(t, k, e, h, f.trace), f)
  {
    Decimal.ParsePrint(e.eventVersion);
    forall n | n in f.trace ensures n !in {CORRELATION_ID, CAUSATION_ID, EVENT_ID, EVENT_TYPE, EVENT_VERSION} {
      assert n in TRACE_HEADERS;
    }
  }

  /** Waiting on the stage that belongs to the number of failures so far. */
  ghost predicate Waiting(c: Config, m0: Message, fs: seq<Failure>, x: Message) {
    && |fs| <= |c.stages|
    && x.event == m0.event
    && (if fs == [] then x == m0 else
          && x.topic == c.stages[|fs| - 1].topic && Keyed(m0, x)
          && RetryHeaders(m0, fs, x) && Enveloped(x, fs[|fs| - 1]))
  }

  ghost predicate DeadLettered(c: Config, m0: Message, fs: seq<Failure>, x: Message) {
    && fs != []
    && x.topic == c.deadLetterTopic && Keyed(m0, x) && RetryHeaders(m0, fs, x)
    && var last := fs[|fs| - 1];
    && Enveloped(x, last) && x.event.eventType == "DeadLetterEvent" && x.event.eventVersion == 1
    && x.event.eventId == last.freshId && x.event.correlationId == m0.event.correlationId
    && x.event.causationId == Some(m0.event.eventId)
    && x.event.payload == DeadLetter(m0.topic, last.offset, last.error.message, m0.event)
  }

  predicate IsRetryHeader(n: string) {
    n == RETRY_COUNT || n == ORIGINAL_TOPIC || n == FIRST_FAILED_AT || n == ERROR_CODE
  }

  /** Neither the envelope nor the trace touches a header of another kind. */
  lemma PublishKeepsHeader(t: Topic, k: string, e: Event, h: Headers, trace: Headers, n: string)
    requires trace.Keys <= TRACE_HEADERS && (n !in MANAGED || IsRetryHeader(n))
    ensures var x := Publish(t, k, e, h, trace).headers;
      (n in x <==> n in h) && (n in h ==> x[n] == h[n])
  {
    assert n !in TRACE_HEADERS && n !in {CORRELATION_ID, CAUSATION_ID, EVENT_ID, EVENT_TYPE, EVENT_VERSION};
  }

  lemma PublishKeepsOthers(t: Topic, k: string, e: Event, h: Headers, trace: Headers)
    requires trace.Keys <= TRACE_HEADERS
    ensures Publish(t, k, e, h, trace).headers - MANAGED == h - MANAGED
  {
    var x := Publish(t, k, e, h, trace).headers;
    forall n | n !in MANAGED ensures (n in x <==> n in h) && (n in h ==> x[n] == h[n]) {
      PublishKeepsHeader(t, k, e, h, trace, n);
    }
  }

  lemma RetryHeadersAre(h: Headers, d: Decision)
    ensures var x := BuildRetryHeaders(h, d);
      && RETRY_COUNT in x && Decimal.Parse(x[RETRY_COUNT]) == Some(d.retryCount)
      && ORIGINAL_TOPIC in x && x[ORIGINAL_TOPIC] == d.originalTopic
      && FIRST_FAILED_AT in x && x[FIRST_FAILED_AT] == d.firstFailedAt
      && ERROR_CODE in x && x[ERROR_CODE] == d.errorCode
      && x - MANAGED == h - MANAGED
  {
    Decimal.ParsePrint(d.retryCount);
  }

  lemma NoStage(c: Config, t: Topic)
    requires forall s :: s in c.stages ==> s.topic != t
    ensures c.StageIndex(t) == -1
  {
    forall k | 0 <= k < |c.stages| ensures c.stages[k].topic != t {
      assert c.stages[k] in c.stages;
    }
  }

  lemma WaitingIsSupported(c: Config, m0: Message, fs: seq<Failure>, x: Message)
    requires Separate(c) && Fresh(c, m0) && Waiting(c, m0, fs, x)
    ensures c.Supports(x.topic, x.headers)
    ensures c.ResolveOriginalTopic(x.topic, x.headers) == m0.topic
    ensures c.StageIndex(x.topic) == |fs| - 1
    ensures ReadRetryCount(x.headers) == |fs|
    ensures FIRST_FAILED_AT in x.headers <==> fs != []
  {
    if fs == [] {
      NoStage(c, m0.topic);
    } else {
      StageIndexIs(c, |fs| - 1);
      assert c.stages[|fs| - 1] in c.stages;
    }
  }

  lemma DecisionAfter(c: Config, m0: Message, fs: seq<Failure>, x: Message, f: Failure)
    requires Separate(c) && Fresh(c, m0) && Waiting(c, m0, fs, x)
    ensures var d := c.DecideFailure(x.topic, x.headers, f.error, f.now);
      && d.Some?
      && d.value.retryCount == |fs| + 1 && d.value.originalTopic == m0.topic
      && d.value.firstFailedAt == (fs + [f])[0].now && d.value.errorCode == f.error.code
      && (d.value.terminal <==> f.error.NonRetryable? || |fs| == |c.stages|)
      && (!d.value.terminal ==> d.value.destination == c.stages[|fs|].topic)
  {
    WaitingIsSupported(c, m0, fs, x);
  }

  lemma HeadersAfter(m0: Message, fs: seq<Failure>, x: Message, f: Failure, d: Decision, t: Topic, e: Event)
    requires d.retryCount == |fs| + 1 && d.originalTopic == m0.topic
    requires d.firstFailedAt == (fs + [f])[0].now && d.errorCode == f.error.code
    requires x.headers - MANAGED == m0.headers - MANAGED && f.trace.Keys <= TRACE_HEADERS
    ensures RetryHeaders(m0, fs + [f], Publish(t, KeyOf(x), e, BuildRetryHeaders(x.headers, d), f.trace))
  {
    assert |fs + [f]| == |fs| + 1 && (fs + [f])[|fs|] == f;
    var h := BuildRetryHeaders(x.headers, d);
    RetryHeadersAre(x.headers, d);
    PublishKeepsOthers(t, KeyOf(x), e, h, f.trace);
    PublishKeepsHeader(t, KeyOf(x), e, h, f.trace, RETRY_COUNT);
    PublishKeepsHeader(t, KeyOf(x), e, h, f.trace, ORIGINAL_TOPIC);
    PublishKeepsHeader(t, KeyOf(x), e, h, f.trace, FIRST_FAILED_AT);
    PublishKeepsHeader(t, KeyOf(x), e, h, f.trace, ERROR_CODE);
  }

  /** What the policy decides after these failures. */
  ghost predicate DecidedAfter(c: Config, m0: Message, fs: seq<Failure>, f: Failure, d: Decision) {
    && d.retryCount == |fs| + 1 && d.originalTopic == m0.topic
    && d.firstFailedAt == (fs + [f])[0].now && d.errorCode == f.error.code
  }

  lemma RetriedNext(c: Config, m0: Message, fs: seq<Failure>, x: Message, f: Failure, d: Decision)
    requires Waiting(c, m0, fs, x) && DecidedAfter(c, m0, fs, f, d) && f.trace.Keys <= TRACE_HEADERS
    requires |fs| < |c.stages| && d.destination == c.stages[|fs|].topic
    ensures var headers := BuildRetryHeaders(x.headers, d);
      Waiting(c, m0, fs + [f], Publish(d.destination, KeyOf(x), x.event, headers, f.trace))
  {
    assert (fs + [f])[|fs|] == f;
    PublishEnvelopes(d.destination, KeyOf(x), x.event, BuildRetryHeaders(x.headers, d), f);
    HeadersAfter(m0, fs, x, f, d, d.destination, x.event);
  }

  lemma DeadLetteredNext(c: Config, m0: Message, fs: seq<Failure>, x: Message, f: Failure, d: Decision)
    requires Waiting(c, m0, fs, x) && DecidedAfter(c, m0, fs, f, d) && f.trace.Keys <= TRACE_HEADERS
    ensures var e := DeadLetterEvent(x, d, f);
      DeadLettered(c, m0, fs + [f], Publish(c.deadLetterTopic, KeyOf(x), e, BuildRetryHeaders(x.headers, d), f.trace))
  {
    assert (fs + [f])[|fs|] == f;
    PublishEnvelopes(c.deadLetterTopic, KeyOf(x), DeadLetterEvent(x, d, f), BuildRetryHeaders(x.headers, d), f);
    HeadersAfter(m0, fs, x, f, d, c.deadLetterTopic, DeadLetterEvent(x, d, f));
  }

  lemma NextStep(c: Config, m0: Message, fs: seq<Failure>, x: Message, f: Failure)
    requires Separate(c) && Fresh(c, m0) && Waiting(c, m0, fs, x) && f.trace.Keys <= TRACE_HEADERS
    ensures var next := Dispatch(c, x, f);
      && next.Some?
      && if f.error.Retryable? && |fs| < |c.stages| then Waiting(c, m0, fs + [f], next.value)
         else DeadLettered(c, m0, fs + [f], next.value)
  {
    DecisionAfter(c, m0, fs, x, f);
    var d := c.DecideFailure(x.topic, x.headers, f.error, f.now).value;
    if d.terminal {
      DeadLetteredNext(c, m0, fs, x, f, d);
    } else {
      RetriedNext(c, m0, fs, x, f, d);
    }
  }

  /** What the header says a message has been through; other texts than decimal digits count for nothing. */
  predicate Counts(h: Headers, n: nat) {
    if RETRY_COUNT in h && Decimal.Parse(h[RETRY_COUNT]).Some? then Decimal.Parse(h[RETRY_COUNT]) == Some(n) else n == 0
  }

  /** The retry headers of the message published for a decision. */
  lemma PublishedHeaders(t: Topic, k: string, e: Event, h: Headers, d: Decision, trace: Headers)
    requires trace.Keys <= TRACE_HEADERS
    ensures var x := Publish(t, k, e, BuildRetryHeaders(h, d), trace).headers;
      && RETRY_COUNT in x && Decimal.Parse(x[RETRY_COUNT]) == Some(d.retryCount)
      && ReadHeader(x, ORIGINAL_TOPIC) == Some(d.originalTopic)
      && ReadHeader(x, FIRST_FAILED_AT) == Some(d.firstFailedAt)
  {
    RetryHeadersAre(h, d);
    PublishKeepsHeader(t, k, e, BuildRetryHeaders(h, d), trace, RETRY_COUNT);
    PublishKeepsHeader(t, k, e, BuildRetryHeaders(h, d), trace, ORIGINAL_TOPIC);
    PublishKeepsHeader(t, k, e, BuildRetryHeaders(h, d), trace, FIRST_FAILED_AT);
  }

  lemma DispatchedHeaders(c: Config, m: Message, f: Failure) returns (d: Decision)
    requires c.sourceTopics != [] && c.Supports(m.topic, m.headers) && f.trace.Keys <= TRACE_HEADERS
    ensures c.DecideFailure(m.topic, m.headers, f.error, f.now) == Some(d) && Dispatch(c, m, f).Some?
    ensures var x := Dispatch(c, m, f).value.headers;
      && RETRY_COUNT in x && Decimal.Parse(x[RETRY_COUNT]) == Some(d.retryCount)
      && ReadHeader(x, ORIGINAL_TOPIC) == Some(d.originalTopic)
      && ReadHeader(x, FIRST_FAILED_AT) == Some(d.firstFailedAt)
  {
    d := c.DecideFailure(m.topic, m.headers, f.error, f.now).value;
    if d.terminal {
      PublishedHeaders(c.deadLetterTopic, KeyOf(m), DeadLetterEvent(m, d, f), m.headers, d, f.trace);
    } else {
      PublishedHeaders(d.destination, KeyOf(m), m.event, m.headers, d, f.trace);
    }
  }

  lemma DecisionKeepsHistory(c: Config, t: Topic, h: Headers, e: Error, now: string, before: nat)
    requires c.sourceTopics != [] && c.Supports(t, h) && Counts(h, before)
    ensures var d, stage := c.DecideFailure(t, h, e, now).value, c.StageIndex(t) + 1;
      && d.retryCount == 1 + (if before > stage then before else stage)
      && d.firstFailedAt == (if FIRST_FAILED_AT in h then h[FIRST_FAILED_AT] else now)
      && d.originalTopic ==
         if ORIGINAL_TOPIC in h && h[ORIGINAL_TOPIC] != "" && h[ORIGINAL_TOPIC] in c.sourceTopics then h[ORIGINAL_TOPIC]
         else if exists s :: s in c.stages && s.topic == t then c.sourceTopics[0]
         else t
  {
    OnStage(c, t);
  }

  /** Whatever headers a message comes with: the one published for its failure counts one more than
      the message said and than its stage stands for, and keeps the first failure and the origin
      that are known; on a stage an unknown origin is taken for the first source topic. */
  lemma DispatchKeepsHistory(c: Config, m: Message, f: Failure, before: nat)
    requires c.sourceTopics != [] && c.Supports(m.topic, m.headers) && f.trace.Keys <= TRACE_HEADERS
    requires Counts(m.headers, before)
    ensures Dispatch(c, m, f).Some?
    ensures var x, h, stage := Dispatch(c, m, f).value.headers, m.headers, c.StageIndex(m.topic) + 1;
      && Counts(x, 1 + if before > stage then before else stage)
      && ReadHeader(x, FIRST_FAILED_AT) == Some(if FIRST_FAILED_AT in h then h[FIRST_FAILED_AT] else f.now)
      && ReadHeader(x, ORIGINAL_TOPIC) == Some(
         if ORIGINAL_TOPIC in h && h[ORIGINAL_TOPIC] != "" && h[ORIGINAL_TOPIC] in c.sourceTopics then h[ORIGINAL_TOPIC]
         else if exists s :: s in c.stages && s.topic == m.topic then c.sourceTopics[0]
         else m.topic)
  {
    var d := DispatchedHeaders(c, m, f);
    DecisionKeepsHistory(c, m.topic, m.headers, f.error, f.now, before);
  }

  lemma OnStage(c: Config, t: Topic)
    ensures c.IsRetry(t) <==> exists s :: s in c.stages && s.topic == t
  {
    if c.IsRetry(t) {
      assert c.stages[c.StageIndex(t)] in c.stages;
    }
  }

  /** Nothing routes a dead-letter record any further. */
  lemma DeadLetterStays(c: Config, m0: Message, fs: seq<Failure>, x: Message, f: Failure)
    requires Separate(c) && DeadLettered(c, m0, fs, x)
    ensures !c.Supports(x.topic, x.headers) && Dispatch(c, x, f) == None
  {
    NoStage(c, x.topic);
  }

  /** Where a message is after any failures at all. */
  lemma {:induction false} Chain(c: Config, m0: Message, fs: seq<Failure>)
    requires Separate(c) && Fresh(c, m0) && Traced(fs)
    ensures var x := After(c, m0, fs);
      if x.None? then !(AllRetryable(fs) && |fs| <= |c.stages|) && !Ending(c, fs)
      else if AllRetryable(fs) && |fs| <= |c.stages| then Waiting(c, m0, fs, x.value)
      else Ending(c, fs) && DeadLettered(c, m0, fs, x.value)
  {
    if fs != [] {
      var init, f := fs[..|fs| - 1], fs[|fs| - 1];
      Chain(c, m0, init);
      assert fs == init + [f];
      var x := After(c, m0, init);
      RetryableFrom(init, f);
      if x.Some? {
        if AllRetryable(init) && |init| <= |c.stages| {
          NextStep(c, m0, init, x.value, f);
        } else {
          DeadLetterStays(c, m0, init, x.value, f);
        }
      }
    }
  }

  lemma RetryableFrom(init: seq<Failure>, f: Failure)
    ensures AllRetryable(init + [f]) <==> AllRetryable(init) && f.error.Retryable?
  {
    if AllRetryable(init + [f]) {
      assert (init + [f])[|init|] == f;
      assert forall i :: 0 <= i < |init| ==> (init + [f])[i] == init[i];
    }
  }

  /** The message is dead-lettered exactly by failures that end the chain, that is by
      its first failure that is not retryable or else by failure number n + 1. */
  lemma DeadLetteredExactlyWhen(c: Config, m0: Message, fs: seq<Failure>)
    requires Separate(c) && Fresh(c, m0) && Traced(fs)
    ensures Ending(c, fs) <==> After(c, m0, fs).Some? && After(c, m0, fs).value.topic == c.deadLetterTopic
    ensures Ending(c, fs) ==> DeadLettered(c, m0, fs, After(c, m0, fs).value)
    ensures After(c, m0, fs).Some? ==> |fs| <= |c.stages| + 1
  {
    Chain(c, m0, fs);
    var x := After(c, m0, fs);
    if AllRetryable(fs) && |fs| <= |c.stages| {
      assert x.Some? && Waiting(c, m0, fs, x.value);
      if fs != [] {
        assert c.stages[|fs| - 1] in c.stages;
      }
    }
  }

  /** Until then it waits on the stage after its last one, which is still supported,
      with its event, key, count, first failure and origin. */
  lemma RetriedOnEveryStage(c: Config, m0: Message, fs: seq<Failure>)
    requires Separate(c) && Fresh(c, m0) && Traced(fs)
    requires AllRetryable(fs) && |fs| <= |c.stages|
    ensures var x := After(c, m0, fs);
      && x.Some? && Waiting(c, m0, fs, x.value)
      && c.Supports(x.value.topic, x.value.headers)
      && c.DelayMs(x.value.topic) == (if fs == [] then 0 else c.stages[|fs| - 1].delayMs)
  {
    Chain(c, m0, fs);
    WaitingIsSupported(c, m0, fs, After(c, m0, fs).value);
  }

  /** A group that registered no retry topic is subscribed to every stage through the original
      topic, and brings the message back to the handler of that topic. */
  lemma RoutedToTheOriginalHandler(c: Config, m0: Message, fs: seq<Failure>, registrations: seq<seq<Topic>>)
    requires Separate(c) && Fresh(c, m0) && Traced(fs)
    requires AllRetryable(fs) && |fs| <= |c.stages|
    requires forall i, s :: 0 <= i < |registrations| && s in c.stages ==> s.topic !in registrations[i]
    ensures var x := After(c, m0, fs);
      && x.Some? && x.value.topic in c.SubscriptionTopics(m0.topic)
      && ResolveHandler(registrations, x.value.topic, x.value.headers) == RegistrationOf(registrations, m0.topic)
  {
    Chain(c, m0, fs);
    var x := After(c, m0, fs).value;
    if fs == [] {
      assert ORIGINAL_TOPIC !in m0.headers;
    } else {
      assert c.stages[|fs| - 1] in c.stages;
      assert c.SubscriptionTopics(m0.topic)[|fs|] == x.topic;
      RegistrationFound(registrations, x.topic);
    }
  }

  // ------------------------------------------------------ configurations that are no chain

  /** The policy supports the message and would send it to another stage once more. */
  ghost predicate GoesOn(c: Config, x: Message)
    requires c.sourceTopics != []
  {
    && c.Supports(x.topic, x.headers)
    && forall e: Error, now: string :: e.Retryable? ==> !c.DecideFailure(x.topic, x.headers, e, now).value.terminal
  }

  /** `findIndex` never gets past the first of two equal names. */
  lemma StageIndexBelow(c: Config, i: nat, j: nat, p: nat)
    requires i < j < |c.stages| && c.stages[i].topic == c.stages[j].topic && p <= j
    ensures c.StageIndex(c.stages[p].topic) < j
  {
    StageIndexFirst(c, c.stages[p].topic, if p == j then i else p, 0);
  }

  lemma {:induction false} StageIndexFirst(c: Config, t: Topic, k: nat, from: nat)
    requires from <= k < |c.stages| && c.stages[k].topic == t
    ensures 0 <= c.StageIndexFrom(t, from) <= k
    decreases k - from
  {
    if c.stages[from].topic != t {
      StageIndexFirst(c, t, k, from + 1);
    }
  }

  /** If two stages share a name, no number of retryable failures ends the retries of a message:
      the policy keeps sending it to the stages up to the second of them. */
  lemma {:induction false} RepeatedStageNeverEnds(c: Config, m0: Message, fs: seq<Failure>)
    requires Apart(c) && !Chained(c) && Fresh(c, m0) && AllRetryable(fs)
    ensures After(c, m0, fs).Some?
    ensures GoesOn(c, After(c, m0, fs).value) && After(c, m0, fs).value.topic != c.deadLetterTopic
  {
    var names := StageTopics(c.stages);
    var i, j :| 0 <= i < j < |names| && names[i] == names[j];
    RepeatedStageTraps(c, m0, fs, i, j);
    var x := After(c, m0, fs).value;
    if x.topic == c.deadLetterTopic {
      NoStage(c, x.topic);
    }
  }

  lemma {:induction false} RepeatedStageTraps(c: Config, m0: Message, fs: seq<Failure>, i: nat, j: nat)
    requires Apart(c) && Fresh(c, m0) && AllRetryable(fs)
    requires i < j < |c.stages| && c.stages[i].topic == c.stages[j].topic
    ensures var x := After(c, m0, fs);
      x.Some? && c.Supports(x.value.topic, x.value.headers) && c.StageIndex(x.value.topic) < j
  {
    if fs == [] {
      NoStage(c, m0.topic);
    } else {
      var init, f := fs[..|fs| - 1], fs[|fs| - 1];
      RepeatedStageTraps(c, m0, init, i, j);
      var x := After(c, m0, init).value;
      var next := c.StageIndex(x.topic) + 1;
      DispatchLeadsTo(c, x, f);
      StageIndexBelow(c, i, j, next);
      StageIndexFirst(c, c.stages[next].topic, next, 0);
      StageSupported(c, c.stages[next].topic, Dispatch(c, x, f).value.headers);
    }
  }

  /** With an accepted configuration n + 1 retryable failures bring a message to the dead-letter
      topic if and only if no two stages have the empty name. */
  lemma EndsExactlyWhen(c: Config, m0: Message, fs: seq<Failure>)
    requires Apart(c) && Accepted(c) && Fresh(c, m0) && Traced(fs)
    requires AllRetryable(fs) && |fs| == |c.stages| + 1
    ensures After(c, m0, fs).Some? && After(c, m0, fs).value.topic == c.deadLetterTopic <==> !EmptyTwice(c)
  {
    ChainedExactlyWhen(c);
    if EmptyTwice(c) {
      RepeatedStageNeverEnds(c, m0, fs);
    } else {
      DeadLetteredExactlyWhen(c, m0, fs);
    }
  }
}
