/** The Redis client of app/order-service/src/modules/admin-security/admin-rate-limit.store.ts:
    command encoding, the incremental reply parser and the socket's data callback. */
module Resp {
  import opened Common
  import Decimal

  /** A string, number, null or array in the source. */
  datatype Reply = Text(text: string) | Integer(n: int) | Nil | Items(items: seq<Reply>)

  /** `Failed`: the parser throws (an error reply or an unknown type). `Outside`: a number is
      written in a way this model does not follow. */
  datatype Parsed = Incomplete | Done(reply: Reply, next: nat) | Failed | Outside

  const CRLF := "\r\n"

  /** `Number(text)` for decimal integers with an optional sign and the empty text. */
  function NumberOf(text: string): Option<int> {
    if text == "" then Some(0)
    else
      var negative := text[0] == '-';
      match Decimal.Parse(if negative || text[0] == '+' then text[1..] else text)
      case None => None
      case Some(n) => var v: int := n; Some(if negative then -v else v)
  }

  /** `input.indexOf("\r\n", offset)` */
  function LineEnd(input: string, offset: nat): (e: Option<nat>)
    requires offset <= |input|
    ensures e.Some? ==> offset <= e.value && e.value + 2 <= |input| && input[e.value] == '\r'
    decreases |input| - offset
  {
    if |input| < offset + 2 then None
    else if input[offset] == '\r' && input[offset + 1] == '\n' then Some(offset)
    else LineEnd(input, offset + 1)
  }

  function Parse(input: string, offset: nat): (r: Parsed)
    requires offset <= |input|
    ensures r.Done? ==> offset < r.next <= |input|
    decreases |input| - offset, 0
  {
    if offset == |input| then Incomplete
    else
      var kind := input[offset];
      if kind !in "+-:$*" then Failed
      else
        match LineEnd(input, offset)
        case None => Incomplete
        case Some(e) =>
          var line := input[offset + 1..e];
          if kind == '-' then Failed
          else if kind == '+' then Done(Text(line), e + 2)
          else
            match NumberOf(line)
            case None => Outside
            case Some(n) =>
              if kind == ':' then Done(Integer(n), e + 2)
              else if kind == '*' then ParseItems(input, n, e + 2, [])
              else if n == -1 then Done(Nil, e + 2)
              else if n < 0 then Outside
              else if |input| < e + 2 + n + 2 then Incomplete
              else Done(Text(input[e + 2..e + 2 + n]), e + 2 + n + 2)
  }

  /** The elements of an array; a negative count reads as an empty array. */
  function ParseItems(input: string, count: int, offset: nat, items: seq<Reply>): (r: Parsed)
    requires offset <= |input|
    ensures r.Done? ==> offset <= r.next <= |input|
    decreases |input| - offset, 1
  {
    if count <= 0 then Done(Items(items), offset)
    else
      match Parse(input, offset)
      case Done(reply, next) => ParseItems(input, count - 1, next, items + [reply])
      case Incomplete => Incomplete
      case Failed => Failed
      case Outside => Outside
  }

  /** `parseRedisReply`: the array case is a loop that pushes items. */
  method ParseRedisReply(input: string, offset: nat) returns (r: Parsed)
    requires offset <= |input|
    ensures r == Parse(input, offset)
    decreases |input| - offset
  {
    if offset == |input| {
      return Incomplete;
    }
    var kind := input[offset];
    if kind !in "+-:$*" {
      return Failed;
    }
    var lineEnd := LineEnd(input, offset);
    if lineEnd.None? {
      return Incomplete;
    }
    var e := lineEnd.value;
    var value := input[offset + 1..e];
    if kind == '-' {
      return Failed;
    }
    if kind == '+' {
      return Done(Text(value), e + 2);
    }
    var number := NumberOf(value);
    if number.None? {
      return Outside;
    }
    var length := number.value;
    if kind == ':' {
      return Done(Integer(length), e + 2);
    }
    if kind == '$' {
      if length == -1 {
        return Done(Nil, e + 2);
      }
      if length < 0 {
        return Outside;
      }
      if |input| < e + 2 + length + 2 {
        return Incomplete;
      }
      return Done(Text(input[e + 2..e + 2 + length]), e + 2 + length + 2);
    }
    var items: seq<Reply>, nextOffset, index := [], e + 2, 0;
    while index < length
      invariant e + 2 <= nextOffset <= |input|
      invariant Parse(input, offset) == ParseItems(input, length - index, nextOffset, items)
    {
      var parsed := ParseRedisReply(input, nextOffset);
      if !parsed.Done? {
        return parsed;
      }
      items := items + [parsed.reply];
      nextOffset := parsed.next;
      index := index + 1;
    }
    return Done(Items(items), nextOffset);
  }

  // --------------------------------------------------------- more input changes nothing

  lemma {:induction false} LineEndStable(a: string, b: string, offset: nat)
    requires offset <= |a| && LineEnd(a, offset).Some?
    ensures LineEnd(a + b, offset) == LineEnd(a, offset)
    decreases |a| - offset
  {
    assert (a + b)[offset] == a[offset] && (a + b)[offset + 1] == a[offset + 1];
    if !(a[offset] == '\r' && a[offset + 1] == '\n') {
      LineEndStable(a, b, offset + 1);
    }
  }

  /** A parse that ended, in a reply or an error, never changes when input is appended. */
  lemma {:induction false} ParseStable(a: string, b: string, offset: nat)
    requires offset <= |a| && !Parse(a, offset).Incomplete?
    ensures Parse(a + b, offset) == Parse(a, offset)
    decreases |a| - offset, 0
  {
    var kind := a[offset];
    assert (a + b)[offset] == kind;
    if kind in "+-:$*" {
      LineEndStable(a, b, offset);
      var e := LineEnd(a, offset).value;
      assert (a + b)[offset + 1..e] == a[offset + 1..e];
      var number := NumberOf(a[offset + 1..e]);
      if kind == '*' && number.Some? {
        ParseItemsStable(a, b, number.value, e + 2, []);
      } else if kind == '$' && number.Some? && number.value >= 0 {
        SliceStable(a, b, e + 2, e + 2 + number.value);
      }
    }
  }

  lemma SliceStable(a: string, b: string, from: nat, to: nat)
    requires from <= to
    ensures to <= |a| ==> (a + b)[from..to] == a[from..to]
  {
  }

  lemma {:induction false} ParseItemsStable(a: string, b: string, count: int, offset: nat, items: seq<Reply>)
    requires offset <= |a| && !ParseItems(a, count, offset, items).Incomplete?
    ensures ParseItems(a + b, count, offset, items) == ParseItems(a, count, offset, items)
    decreases |a| - offset, 1
  {
    if count > 0 {
      ParseStable(a, b, offset);
      var first := Parse(a, offset);
      if first.Done? {
        ParseItemsStable(a, b, count - 1, first.next, items + [first.reply]);
      }
    }
  }

  // ----------------------------------------------------------------- the reply stream

  /** The complete replies at the front of a stream, in order. */
  function Replies(stream: string): seq<Reply>
    decreases |stream|
  {
    match Parse(stream, 0)
    case Done(reply, next) => [reply] + Replies(stream[next..])
    case _ => []
  }

  /** What is left after them. */
  function Rest(stream: string): string
    decreases |stream|
  {
    match Parse(stream, 0)
    case Done(_, next) => Rest(stream[next..])
    case _ => stream
  }

  /** No error in what was received so far. */
  predicate Clean(stream: string) {
    Parse(Rest(stream), 0).Incomplete?
  }

  lemma {:induction false} StreamAppend(a: string, b: string)
    requires Clean(a)
    ensures Replies(a + b) == Replies(a) + Replies(Rest(a) + b)
    ensures Rest(a + b) == Rest(Rest(a) + b)
    decreases |a|
  {
    var p := Parse(a, 0);
    if p.Done? {
      var rest := a[p.next..];
      StreamAppend(rest, b);
      FirstStays(a, b);
      StreamUnfolds(a);
      StreamUnfolds(a + b);
      Regroup(p.reply, Replies(rest), Replies(Rest(rest) + b));
    }
  }

  lemma Regroup(first: Reply, a: seq<Reply>, b: seq<Reply>)
    ensures [first] + (a + b) == ([first] + a) + b
  {
  }

  lemma FirstStays(a: string, b: string)
    requires Parse(a, 0).Done?
    ensures Parse(a + b, 0) == Parse(a, 0) && (a + b)[Parse(a, 0).next..] == a[Parse(a, 0).next..] + b
  {
    ParseStable(a, b, 0);
  }

  lemma StreamUnfolds(s: string)
    requires Parse(s, 0).Done?
    ensures var p := Parse(s, 0); Replies(s) == [p.reply] + Replies(s[p.next..]) && Rest(s) == Rest(s[p.next..])
  {
  }

  lemma {:induction false} CleanPrefix(a: string, b: string)
    requires Clean(a + b)
    ensures Clean(a)
    decreases |a|
  {
    var p := Parse(a, 0);
    if !p.Incomplete? {
      ParseStable(a, b, 0);
      if p.Done? {
        assert (a + b)[p.next..] == a[p.next..] + b;
        CleanPrefix(a[p.next..], b);
      }
    }
  }

  // --------------------------------------------------------------------- the client

  type Id = nat

  /** `settled` pairs each resolved command with its reply; `open` ends at the first error,
      which rejects all pending commands and destroys the socket. */
  datatype Client = Client(buffer: string, pending: seq<Id>, settled: seq<(Id, Reply)>, open: bool)

  const CONNECTED := Client("", [], [], true)

  function Settle(c: Client, reply: Reply, next: nat): Client
    requires c.pending != [] && next <= |c.buffer|
  {
    c.(buffer := c.buffer[next..], pending := c.pending[1..], settled := c.settled + [(c.pending[0], reply)])
  }

  function Drain(c: Client): Client
    decreases |c.pending|
  {
    if c.pending == [] then c
    else
      match Parse(c.buffer, 0)
      case Incomplete => c
      case Done(reply, next) =>
        Drain(Settle(c, reply, next))
      case _ => c.(pending := [], open := false)
  }

  function Receive(c: Client, chunk: string): Client {
    if c.open then Drain(c.(buffer := c.buffer + chunk)) else c
  }

  datatype Event = Send(id: Id) | Data(chunk: string)

  function Step(c: Client, e: Event): Client {
    match e
    case Send(id) => if c.open then c.(pending := c.pending + [id]) else c
    case Data(chunk) => Receive(c, chunk)
  }

  function Run(events: seq<Event>): Client {
    if events == [] then CONNECTED else Step(Run(events[..|events| - 1]), events[|events| - 1])
  }

  function Stream(events: seq<Event>): string {
    if events == [] then ""
    else
      var last := events[|events| - 1];
      Stream(events[..|events| - 1]) + if last.Data? then last.chunk else ""
  }

  function Sent(events: seq<Event>): seq<Id> {
    if events == [] then []
    else
      var last := events[|events| - 1];
      Sent(events[..|events| - 1]) + if last.Send? then [last.id] else []
  }

  /** Command `j` and reply `j` belong together. */
  ghost predicate Matched(sent: seq<Id>, replies: seq<Reply>, settled: seq<(Id, Reply)>) {
    && |settled| <= |sent| && |settled| <= |replies|
    && forall j :: 0 <= j < |settled| ==> settled[j] == (sent[j], replies[j])
  }

  /** What the client did so far, said of the text it received and the commands it sent. */
  ghost predicate InStep(c: Client, stream: string, sent: seq<Id>) {
    && c.open
    && Consumed(sent, Replies(stream), Replies(c.buffer), c.settled)
    && c.pending == sent[|c.settled|..]
    && Rest(c.buffer) == Rest(stream)
  }

  ghost predicate Consumed(sent: seq<Id>, all: seq<Reply>, left: seq<Reply>, settled: seq<(Id, Reply)>) {
    Matched(sent, all, settled) && left == all[|settled|..]
  }

  lemma ConsumedGrows(sent: seq<Id>, all: seq<Reply>, left: seq<Reply>, settled: seq<(Id, Reply)>, more: seq<Reply>)
    requires Consumed(sent, all, left, settled)
    ensures Consumed(sent, all + more, left + more, settled)
  {
    assert (all + more)[|settled|..] == all[|settled|..] + more;
  }

  lemma ConsumedOne(sent: seq<Id>, all: seq<Reply>, left: seq<Reply>, settled: seq<(Id, Reply)>)
    requires Consumed(sent, all, left, settled) && left != [] && |settled| < |sent|
    ensures Consumed(sent, all, left[1..], settled + [(sent[|settled|], left[0])])
  {
    assert left[0] == all[|settled|];
  }

  lemma SettleInStep(c: Client, stream: string, sent: seq<Id>)
    requires InStep(c, stream, sent) && c.pending != [] && Parse(c.buffer, 0).Done?
    ensures var p := Parse(c.buffer, 0); InStep(Settle(c, p.reply, p.next), stream, sent)
  {
    var p := Parse(c.buffer, 0);
    var left := Replies(c.buffer);
    assert left == [p.reply] + Replies(c.buffer[p.next..]);
    assert left[1..] == Replies(c.buffer[p.next..]);
    ConsumedOne(sent, Replies(stream), left, c.settled);
    assert c.pending[0] == sent[|c.settled|] && c.pending[1..] == sent[|c.settled| + 1..];
  }

  lemma {:induction false} DrainInStep(c: Client, stream: string, sent: seq<Id>)
    requires InStep(c, stream, sent) && Clean(stream)
    ensures InStep(Drain(c), stream, sent)
    ensures |Drain(c).settled| == if |sent| < |Replies(stream)| then |sent| else |Replies(stream)|
    decreases |c.pending|
  {
    if c.pending != [] {
      var p := Parse(c.buffer, 0);
      if p.Done? {
        SettleInStep(c, stream, sent);
        DrainInStep(Settle(c, p.reply, p.next), stream, sent);
      } else {
        assert Rest(c.buffer) == c.buffer;
        assert Replies(c.buffer) == [];
      }
    }
  }

  lemma AppendInStep(c: Client, stream: string, sent: seq<Id>, chunk: string)
    requires InStep(c, stream, sent) && Clean(stream)
    ensures InStep(c.(buffer := c.buffer + chunk), stream + chunk, sent)
  {
    StreamAppend(stream, chunk);
    StreamAppend(c.buffer, chunk);
    ConsumedGrows(sent, Replies(stream), Replies(c.buffer), c.settled, Replies(Rest(stream) + chunk));
  }

  /** The j-th reply resolves the j-th command, whatever the chunks and however sends and
      chunks interleave; after a chunk, every command whose reply has arrived is resolved. */
  lemma {:induction false} RepliesInOrder(events: seq<Event>)
    requires Clean(Stream(events))
    ensures InStep(Run(events), Stream(events), Sent(events))
    ensures events != [] && events[|events| - 1].Data? ==>
              var sent, replies := |Sent(events)|, |Replies(Stream(events))|;
              |Run(events).settled| == if sent < replies then sent else replies
  {
    if events == [] {
      assert Parse("", 0) == Incomplete;
    } else {
      var init, last := events[..|events| - 1], events[|events| - 1];
      match last
      case Send(id) =>
        assert Stream(events) == Stream(init);
        RepliesInOrder(init);
        SendInStep(Run(init), Stream(init), Sent(init), id);
      case Data(chunk) =>
        CleanPrefix(Stream(init), chunk);
        RepliesInOrder(init);
        ReceiveInStep(Run(init), Stream(init), Sent(init), chunk);
        assert Sent(events) == Sent(init);
    }
  }

  lemma ReceiveInStep(c: Client, stream: string, sent: seq<Id>, chunk: string)
    requires InStep(c, stream, sent) && Clean(stream) && Clean(stream + chunk)
    ensures var d, replies := Receive(c, chunk), |Replies(stream + chunk)|;
      InStep(d, stream + chunk, sent) && |d.settled| == if |sent| < replies then |sent| else replies
  {
    AppendInStep(c, stream, sent, chunk);
    DrainInStep(c.(buffer := c.buffer + chunk), stream + chunk, sent);
  }

  lemma SendInStep(c: Client, stream: string, sent: seq<Id>, id: Id)
    requires InStep(c, stream, sent)
    ensures InStep(Step(c, Send(id)), stream, sent + [id])
  {
    assert (sent + [id])[|c.settled|..] == sent[|c.settled|..] + [id];
  }

  /** Apart from what is left in the buffer of a destroyed socket. */
  ghost predicate Alike(c: Client, d: Client) {
    c.settled == d.settled && c.pending == d.pending && c.open == d.open && (c.open ==> c.buffer == d.buffer)
  }

  lemma {:induction false} DrainJoins(c: Client, b: string)
    requires c.open
    ensures Alike(Drain(c.(buffer := c.buffer + b)), Receive(Drain(c), b))
    decreases |c.pending|
  {
    var p := Parse(c.buffer, 0);
    if c.pending != [] && !p.Incomplete? {
      ParseStable(c.buffer, b, 0);
      if p.Done? {
        assert (c.buffer + b)[p.next..] == c.buffer[p.next..] + b;
        DrainJoins(Settle(c, p.reply, p.next), b);
      }
    }
  }

  /** Two chunks do what their concatenation does, errors included. */
  lemma ChunksJoin(c: Client, a: string, b: string)
    ensures Alike(Receive(c, a + b), Receive(Receive(c, a), b))
  {
    if c.open {
      assert c.buffer + (a + b) == (c.buffer + a) + b;
      DrainJoins(c.(buffer := c.buffer + a), b);
    }
  }

  class RedisCommandClient {
    var buffer: string
    var pending: seq<Id>
    var settled: seq<(Id, Reply)>
    var open: bool

    ghost function View(): Client
      reads this
    {
      Client(buffer, pending, settled, open)
    }

    constructor ()
      ensures View() == CONNECTED
    {
      buffer, pending, settled, open := "", [], [], true;
    }

    method SendCommand(id: Id)
      requires open
      modifies this`pending
      ensures View() == Step(old(View()), Send(id))
    {
      pending := pending + [id];
    }

    method OnData(chunk: string)
      requires open
      modifies this
      ensures View() == Receive(old(View()), chunk)
    {
      buffer := buffer + chunk;
      while pending != []
        invariant open && Drain(View()) == Receive(old(View()), chunk)
        decreases |pending|
      {
        var parsed := ParseRedisReply(buffer, 0);
        match parsed
        case Incomplete => return;
        case Done(reply, next) =>
          buffer := buffer[next..];
          settled := settled + [(pending[0], reply)];
          pending := pending[1..];
        case _ =>
          RejectPending();
          open := false;
          return;
      }
    }

    method RejectPending()
      modifies this`pending
      ensures pending == []
    {
      while pending != []
        decreases |pending|
      {
        pending := pending[1..];
      }
    }
  }
}
