/** Routing of failed messages: packages/kafka/src/retry/configurable-kafka-retry-policy.ts,
    kafka-retry-dispatcher.ts and the headers of packages/kafka/src/kafka-headers.ts. */
module RetryPolicy {
  import opened Common
  import Decimal

  type Topic = string
  type Headers = map<string, string>

  const CORRELATION_ID := "x-correlation-id"
  const CAUSATION_ID := "x-causation-id"
  const EVENT_ID := "x-event-id"
  const EVENT_TYPE := "x-event-type"
  const EVENT_VERSION := "x-event-version"
  const RETRY_COUNT := "x-retry-count"
  const ORIGINAL_TOPIC := "x-original-topic"
  const FIRST_FAILED_AT := "x-first-failed-at"
  const ERROR_CODE := "x-error-code"
  const TRACE_HEADERS: set<string> := {"traceparent", "tracestate", "x-trace-id", "x-span-id"}

  datatype Payload =
    | Business(text: string)
    | DeadLetter(originalTopic: Topic, originalOffset: nat, errorMessage: string, rawEvent: Event)

  datatype Event = Event(eventId: string, eventType: string, eventVersion: nat, correlationId: string,
                         causationId: Option<string>, payload: Payload)

  datatype Message = Message(topic: Topic, key: Option<string>, event: Event, headers: Headers)

  datatype Error = NonRetryable(code: string, message: string) | Retryable(code: string, message: string)

  // ------------------------------------------------------------------ headers

  function ReadHeader(h: Headers, name: string): Option<string> {
    if name in h then Some(h[name]) else None
  }

  /** The envelope's fields override the extra headers; an absent causation id
      also removes an extra causation header. */
  function BuildKafkaHeaders(e: Event, extra: Headers): Headers {
    (extra - {CAUSATION_ID})
    + map[CORRELATION_ID := e.correlationId, EVENT_ID := e.eventId, EVENT_TYPE := e.eventType,
          EVENT_VERSION := Decimal.Print(e.eventVersion)]
    + (if e.causationId.Some? then map[CAUSATION_ID := e.causationId.value] else map[])
  }

  /** `KafkaProducerService.publish`: trace headers of the active span go over the given ones. */
  function Publish(topic: Topic, key: string, e: Event, headers: Headers, trace: Headers): Message {
    Message(topic, Some(key), e, BuildKafkaHeaders(e, headers + trace))
  }

  // ------------------------------------------------------------------- policy

  datatype Stage = Stage(topic: Topic, delayMs: nat)

  datatype Config = Config(sourceTopics: seq<Topic>, stages: seq<Stage>, deadLetterTopic: Topic) {
    predicate IsSource(t: Topic) { t in sourceTopics }

    /** `findIndex` over the stage topics, -1 when there is none. */
    function StageIndex(t: Topic): (i: int)
      ensures -1 <= i < |stages|
      ensures i >= 0 ==> stages[i].topic == t
      ensures i == -1 <==> forall k :: 0 <= k < |stages| ==> stages[k].topic != t
    {
      StageIndexFrom(t, 0)
    }

    function StageIndexFrom(t: Topic, from: nat): (i: int)
      requires from <= |stages|
      ensures -1 <= i < |stages|
      ensures i >= 0 ==> from <= i && stages[i].topic == t
      ensures i == -1 <==> forall k :: from <= k < |stages| ==> stages[k].topic != t
      decreases |stages| - from
    {
      if from == |stages| then -1 else if stages[from].topic == t then from else StageIndexFrom(t, from + 1)
    }

    predicate IsRetry(t: Topic) { StageIndex(t) >= 0 }

    /** The topic the message first failed on. A message of a shared retry topic
        without a usable header is taken for one of the first source topic. */
    function ResolveOriginalTopic(t: Topic, h: Headers): Topic
      requires sourceTopics != []
    {
      var header := ReadHeader(h, ORIGINAL_TOPIC);
      if header.Some? && header.value != "" && IsSource(header.value) then header.value
      else if IsRetry(t) then sourceTopics[0]
      else t
    }

    predicate Supports(t: Topic, h: Headers)
      requires sourceTopics != []
    {
      var original := ResolveOriginalTopic(t, h);
      IsSource(original) && (t == original || IsRetry(t))
    }

    function SubscriptionTopics(t: Topic): seq<Topic> {
      if IsSource(t) then [t] + StageTopics(stages) else [t]
    }

    function DelayMs(t: Topic): nat {
      var i := StageIndex(t);
      if i < 0 then 0 else stages[i].delayMs
    }

    /** None when the policy throws: the topic is not part of the chain. */
    function DecideFailure(t: Topic, h: Headers, error: Error, now: string): Option<Decision>
      requires sourceTopics != []
    {
      if !Supports(t, h) then None
      else
        var next := StageIndex(t) + 1;
        var terminal := error.NonRetryable? || next == |stages|;
        Some(Decision(
          if terminal then deadLetterTopic else stages[next].topic,
          ResolveOriginalTopic(t, h),
          var previous := ReadRetryCount(h); if previous + 1 > next + 1 then previous + 1 else next + 1,
          match ReadHeader(h, FIRST_FAILED_AT) case Some(at) => at case None => now,
          error.code,
          terminal))
    }
  }

  datatype Decision = Decision(destination: Topic, originalTopic: Topic, retryCount: nat, firstFailedAt: string,
                               errorCode: string, terminal: bool)

  function StageTopics(stages: seq<Stage>): (r: seq<Topic>)
    ensures |r| == |stages|
    ensures forall i :: 0 <= i < |r| ==> r[i] == stages[i].topic
  {
    seq(|stages|, i requires 0 <= i < |stages| => stages[i].topic)
  }

  /** A count that is not written in plain digits is read as 0. */
  function ReadRetryCount(h: Headers): nat {
    match ReadHeader(h, RETRY_COUNT)
    case None => 0
    case Some(text) => (match Decimal.Parse(text) case None => 0 case Some(n) => n)
  }

  // ------------------------------------------------------- accepted configurations

  /** The first value that occurred before. */
  function FirstDuplicate(values: seq<string>): Option<string> {
    if values == [] then None
    else
      var init := values[..|values| - 1];
      var earlier := FirstDuplicate(init);
      if earlier.Some? then earlier
      else if values[|values| - 1] in init then Some(values[|values| - 1])
      else None
  }

  /** `findDuplicate` remembers what it saw in a set. */
  method FindDuplicate(values: seq<string>) returns (d: Option<string>)
    ensures d == FirstDuplicate(values)
  {
    var seen: set<string> := {};
    for i := 0 to |values|
      invariant forall v :: v in seen <==> v in values[..i]
      invariant FirstDuplicate(values[..i]) == None
    {
      assert values[..i + 1][..i] == values[..i];
      if values[i] in seen {
        DuplicateStays(values, i + 1);
        return Some(values[i]);
      }
      seen := seen + {values[i]};
    }
    assert values[..|values|] == values;
    return None;
  }

  lemma {:induction false} DuplicateStays(values: seq<string>, n: nat)
    requires n <= |values| && FirstDuplicate(values[..n]).Some?
    ensures FirstDuplicate(values) == FirstDuplicate(values[..n])
  {
    if n == |values| {
      assert values[..n] == values;
    } else {
      var init := values[..|values| - 1];
      assert init[..n] == values[..n];
      DuplicateStays(init, n);
    }
  }

  ghost predicate Occurs2(values: seq<string>, v: string) {
    exists i, j :: 0 <= i < j < |values| && values[i] == v && values[j] == v
  }

  lemma {:induction false} NoFirstDuplicate(values: seq<string>)
    ensures FirstDuplicate(values).None? <==> NoDup(values)
    ensures FirstDuplicate(values).Some? ==> Occurs2(values, FirstDuplicate(values).value)
  {
    if values != [] {
      var init, last := values[..|values| - 1], values[|values| - 1];
      NoFirstDuplicate(init);
      assert values == init + [last];
      if FirstDuplicate(init).Some? {
        var first := FirstDuplicate(init).value;
        var i, j :| 0 <= i < j < |init| && init[i] == first && init[j] == first;
        assert values[i] == init[i] && values[j] == init[j];
      } else if last in init {
        var i := IndexIn(init, last);
        assert values[i] == last && values[|init|] == last;
      }
    }
  }

  /** What the constructor lets through: the duplicate it finds is tested for
      truthiness, so a repeated empty name does not count. */
  predicate Accepted(c: Config) {
    && c.sourceTopics != [] && c.stages != []
    && FirstDuplicate(StageTopics(c.stages)) in {None, Some("")}
  }

  method AssertValidConfig(c: Config) returns (ok: bool)
    ensures ok == Accepted(c)
  {
    if c.sourceTopics == [] || c.stages == [] {
      return false;
    }
    var d := FindDuplicate(StageTopics(c.stages));
    ok := d.None? || d.value == "";
  }

  /** The stages form a chain: no name occurs twice. */
  ghost predicate Chained(c: Config) {
    c.sourceTopics != [] && c.stages != [] && NoDup(StageTopics(c.stages))
  }

  ghost predicate EmptyTwice(c: Config) {
    Occurs2(StageTopics(c.stages), "")
  }

  /** The constructor checks all but one thing: its configurations are chains exactly if no
      two stages have the empty name. */
  lemma ChainedExactlyWhen(c: Config)
    ensures Chained(c) <==> Accepted(c) && !EmptyTwice(c)
  {
    NoFirstDuplicate(StageTopics(c.stages));
  }

  lemma StageIndexIs(c: Config, i: nat)
    requires Chained(c) && i < |c.stages|
    ensures c.StageIndex(c.stages[i].topic) == i
  {
    var names := StageTopics(c.stages);
    var k := c.StageIndex(names[i]);
    assert k >= 0 && names[k] == names[i];
  }

  // --------------------------------------------------------------- dispatcher

  /** One failure of a handler: what was thrown, the clock, the offset of the message,
      the random id of a dead-letter event and the headers of the active trace span. */
  datatype Failure = Failure(error: Error, now: string, offset: nat, freshId: string, trace: Headers)

  function BuildRetryHeaders(h: Headers, d: Decision): Headers {
    h + map[RETRY_COUNT := Decimal.Print(d.retryCount), ORIGINAL_TOPIC := d.originalTopic,
            FIRST_FAILED_AT := d.firstFailedAt, ERROR_CODE := d.errorCode]
  }

  function DeadLetterEvent(m: Message, d: Decision, f: Failure): Event {
    Event(f.freshId, "DeadLetterEvent", 1, m.event.correlationId, Some(m.event.eventId),
          DeadLetter(d.originalTopic, f.offset, f.error.message, m.event))
  }

  function KeyOf(m: Message): string {
    if m.key.Some? then m.key.value else m.event.eventId
  }

  /** The message published for a failure; None when the policy throws. */
  function Dispatch(c: Config, m: Message, f: Failure): Option<Message>
    requires c.sourceTopics != []
  {
    match c.DecideFailure(m.topic, m.headers, f.error, f.now)
    case None => None
    case Some(d) =>
      var headers := BuildRetryHeaders(m.headers, d);
      if d.terminal then Some(Publish(c.deadLetterTopic, KeyOf(m), DeadLetterEvent(m, d, f), headers, f.trace))
      else Some(Publish(d.destination, KeyOf(m), m.event, headers, f.trace))
  }

  /** Where a failure sends the message. */
  lemma DispatchLeadsTo(c: Config, m: Message, f: Failure)
    requires c.sourceTopics != []
    ensures Dispatch(c, m, f).None? <==> !c.Supports(m.topic, m.headers)
    ensures var x, next := Dispatch(c, m, f), c.StageIndex(m.topic) + 1;
      x.Some? ==> x.value.topic ==
                  if f.error.NonRetryable? || next == |c.stages| then c.deadLetterTopic else c.stages[next].topic
  {
  }

  /** A message on a stage is supported whatever its headers say. */
  lemma StageSupported(c: Config, t: Topic, h: Headers)
    requires c.sourceTopics != [] && c.IsRetry(t)
    ensures c.Supports(t, h)
  {
  }

  // ------------------------------------------------------------- handler lookup

  /** Index of the first registration that lists the topic. */
  function RegistrationOf(registrations: seq<seq<Topic>>, t: Topic): Option<nat> {
    if registrations == [] then None
    else if t in registrations[0] then Some(0)
    else
      match RegistrationOf(registrations[1..], t)
      case None => None
      case Some(i) => Some(i + 1)
  }

  function ResolveHandler(registrations: seq<seq<Topic>>, t: Topic, h: Headers): Option<nat> {
    var direct := RegistrationOf(registrations, t);
    if direct.Some? then direct
    else
      var header := ReadHeader(h, ORIGINAL_TOPIC);
      RegistrationOf(registrations, if header.Some? then header.value else t)
  }

  lemma {:induction false} RegistrationFound(registrations: seq<seq<Topic>>, t: Topic)
    ensures RegistrationOf(registrations, t).None? <==> forall i :: 0 <= i < |registrations| ==> t !in registrations[i]
    ensures var r := RegistrationOf(registrations, t);
      r.Some? ==> r.value < |registrations| && t in registrations[r.value]
  {
    if registrations != [] && t !in registrations[0] {
      RegistrationFound(registrations[1..], t);
      forall i | 0 <= i < |registrations| && RegistrationOf(registrations[1..], t).None?
        ensures t !in registrations[i]
      {
        assert i > 0 ==> registrations[i] == registrations[1..][i - 1];
      }
    }
  }
}
