/** The replies of the server: every reply written in RESP2 is read back as it is, from whatever
    chunks it comes in, and an unfinished one is waited for. */
module RespReplies {
  import opened Common
  import opened Resp
  import opened RespRoundTrip
  import Decimal

  function IntText(n: int): string {
    if n < 0 then "-" + Decimal.Print(-n) else Decimal.Print(n)
  }

  /** RESP2, "Integers", "Bulk strings" with their null and "Arrays". Lengths are those of the decoded
      text, which are the byte lengths if the text is ASCII. */
  function Wire(r: Reply): string
    decreases r
  {
    match r
    case Integer(n) => ":" + IntText(n) + CRLF
    case Text(text) => Header('$', |text|) + (text + CRLF)
    case Nil => "$-1" + CRLF
    case Items(items) => Header('*', |items|) + WireAll(items)
  }

  function WireAll(items: seq<Reply>): string
    decreases items
  {
    if items == [] then "" else Wire(items[0]) + WireAll(items[1..])
  }

  /** A line without a line break in it. */
  lemma LineParses(input: string, offset: nat, kind: char, text: string)
    requires At(input, offset, [kind] + text + CRLF) && kind != '\r'
    requires forall i :: 0 <= i < |text| ==> text[i] != '\r'
    ensures var e := offset + 1 + |text|;
      e + 2 <= |input| && input[offset] == kind && LineEnd(input, offset) == Some(e) && input[offset + 1..e] == text
  {
    var e := offset + 1 + |text|;
    AtSplits(input, offset, [kind] + text, CRLF);
    AtSplits(input, offset, [kind], text);
    assert input[offset] == input[offset..offset + 1][0];
    forall i | offset <= i < e ensures input[i] != '\r' {
      if i > offset {
        assert input[i] == input[offset + 1..e][i - offset - 1];
      }
    }
    assert input[e] == input[e..e + 2][0] && input[e + 1] == input[e..e + 2][1];
    LineEndAt(input, offset, e);
  }

  /** A minus sign, a plus sign or none; an empty line counts as 0. */
  lemma IntReads(n: int)
    ensures NumberOf(IntText(n)) == Some(n) && NumberOf("") == Some(0)
    ensures n >= 0 ==> NumberOf("+" + IntText(n)) == Some(n)
    ensures forall i :: 0 <= i < |IntText(n)| ==> IntText(n)[i] != '\r'
  {
    var m: nat := if n < 0 then -n else n;
    var text := Decimal.Print(m);
    Decimal.ParsePrint(m);
    assert Decimal.IsDigit(text[0]);
    assert ("-" + text)[1..] == text && ("+" + text)[1..] == text;
  }

  /** What the parser makes of a complete line. */
  lemma LineMeans(input: string, offset: nat, e: nat)
    requires offset < |input| && LineEnd(input, offset) == Some(e) && offset < e
    ensures input[offset] == '+' ==> Parse(input, offset) == Done(Text(input[offset + 1..e]), e + 2)
    ensures input[offset] == '-' ==> Parse(input, offset) == Failed
    ensures var n := NumberOf(input[offset + 1..e]);
      && (input[offset] == ':' && n.Some? ==> Parse(input, offset) == Done(Integer(n.value), e + 2))
      && (input[offset] == '$' && n == Some(-1) ==> Parse(input, offset) == Done(Nil, e + 2))
      && (input[offset] == '*' && n.Some? ==> Parse(input, offset) == ParseItems(input, n.value, e + 2, []))
  {
  }

  lemma IntegerWire(n: int)
    ensures Wire(Integer(n)) == [':'] + IntText(n) + CRLF && |Wire(Integer(n))| == |IntText(n)| + 3
  {
  }

  lemma IntegerParses(input: string, offset: nat, n: int)
    requires At(input, offset, Wire(Integer(n)))
    ensures Parse(input, offset) == Done(Integer(n), offset + |Wire(Integer(n))|)
  {
    IntReads(n);
    IntegerWire(n);
    LineParses(input, offset, ':', IntText(n));
    LineMeans(input, offset, offset + 1 + |IntText(n)|);
  }

  lemma NilParses(input: string, offset: nat)
    requires At(input, offset, Wire(Nil))
    ensures Parse(input, offset) == Done(Nil, offset + |Wire(Nil)|)
  {
    assert Decimal.Print(1) == "1";
    IntReads(-1);
    assert IntText(-1) == "-1";
    assert Wire(Nil) == ['$'] + "-1" + CRLF;
    LineParses(input, offset, '$', "-1");
    LineMeans(input, offset, offset + 3);
  }

  lemma TextParses(input: string, offset: nat, text: string)
    requires At(input, offset, Wire(Text(text)))
    ensures Parse(input, offset) == Done(Text(text), offset + |Wire(Text(text))|)
  {
    var start := offset + |Header('$', |text|)|;
    TextSplits(input, offset, text);
    BulkHeaderParses(input, offset, |text|);
  }

  lemma TextSplits(input: string, offset: nat, text: string)
    requires At(input, offset, Wire(Text(text)))
    ensures var start := offset + |Header('$', |text|)|;
      && At(input, offset, Header('$', |text|)) && start + |text| + 2 <= |input|
      && input[start..start + |text|] == text && start + |text| + 2 == offset + |Wire(Text(text))|
  {
    AtSplits(input, offset, Header('$', |text|), text + CRLF);
    AtSplits(input, offset + |Header('$', |text|)|, text, CRLF);
  }

  lemma ItemsHeaderParses(input: string, offset: nat, n: nat)
    requires At(input, offset, Header('*', n))
    ensures Parse(input, offset) == ParseItems(input, n, offset + |Header('*', n)|, [])
  {
    HeaderParses(input, offset, '*', n);
    LineMeans(input, offset, offset + 1 + |Decimal.Print(n)|);
    assert input[offset] == input[offset..offset + |Header('*', n)|][0] == '*';
  }

  lemma ItemsStart(input: string, offset: nat, items: seq<Reply>) returns (start: nat)
    requires At(input, offset, Wire(Items(items)))
    ensures start <= |input| && At(input, start, WireAll(items))
    ensures Parse(input, offset) == ParseItems(input, |items|, start, [])
    ensures start + |WireAll(items)| == offset + |Wire(Items(items))|
  {
    var header := Header('*', |items|);
    start := offset + |header|;
    Splits(input, offset, Wire(Items(items)), header, WireAll(items));
    ItemsHeaderParses(input, offset, |items|);
  }

  lemma Splits(input: string, offset: nat, whole: string, a: string, b: string)
    requires At(input, offset, whole) && whole == a + b
    ensures At(input, offset, a) && At(input, offset + |a|, b) && |whole| == |a| + |b|
  {
    AtSplits(input, offset, a, b);
  }

  /** What the server writes is what the client reads, wherever it stands in the input. */
  lemma {:induction false} ReplyReadsBack(input: string, offset: nat, r: Reply)
    requires At(input, offset, Wire(r))
    ensures Parse(input, offset) == Done(r, offset + |Wire(r)|)
    decreases r
  {
    match r
    case Integer(n) => IntegerParses(input, offset, n);
    case Nil => NilParses(input, offset);
    case Text(text) => TextParses(input, offset, text);
    case Items(items) =>
      var start := ItemsStart(input, offset, items);
      ItemsReadBack(input, start, items, []);
      assert [] + items == items;
  }

  lemma {:induction false} ItemsReadBack(input: string, offset: nat, items: seq<Reply>, before: seq<Reply>)
    requires At(input, offset, WireAll(items))
    ensures ParseItems(input, |items|, offset, before) == Done(Items(before + items), offset + |WireAll(items)|)
    decreases items
  {
    if items == [] {
      assert before + items == before;
    } else {
      var first, rest := items[0], items[1..];
      var next := offset + |Wire(first)|;
      Splits(input, offset, WireAll(items), Wire(first), WireAll(rest));
      ReplyReadsBack(input, offset, first);
      ItemsReadBack(input, next, rest, before + [first]);
      ItemsStep(input, |items|, offset, next, first, before);
      assert (before + [first]) + rest == before + items;
    }
  }

  /** A simple string is the rest of its line, an error line makes the client throw, and so does any
      other type at its first character. */
  lemma LinesAreRead(input: string, offset: nat, text: string)
    requires forall i :: 0 <= i < |text| ==> text[i] != '\r'
    ensures At(input, offset, "+" + text + CRLF) ==> Parse(input, offset) == Done(Text(text), offset + |text| + 3)
    ensures At(input, offset, "-" + text + CRLF) ==> Parse(input, offset) == Failed
    ensures offset < |input| && input[offset] !in "+-:$*" ==> Parse(input, offset) == Failed
  {
    if At(input, offset, ['+'] + text + CRLF) {
      LineParses(input, offset, '+', text);
      LineMeans(input, offset, offset + 1 + |text|);
    }
    if At(input, offset, ['-'] + text + CRLF) {
      LineParses(input, offset, '-', text);
      LineMeans(input, offset, offset + 1 + |text|);
    }
  }

  /** The client waits for exactly the unfinished replies. */
  lemma UnfinishedIsAwaited(r: Reply, n: nat)
    requires n <= |Wire(r)|
    ensures Parse(Wire(r)[..n], 0).Incomplete? <==> n < |Wire(r)|
  {
    var wire := Wire(r);
    assert At(wire, 0, wire);
    ReplyReadsBack(wire, 0, r);
    if !Parse(wire[..n], 0).Incomplete? {
      ParseStable(wire[..n], wire[n..], 0);
      assert wire[..n] + wire[n..] == wire;
    }
    assert wire[..|wire|] == wire;
  }

  lemma {:induction false} StreamOfReplies(rs: seq<Reply>)
    ensures Replies(WireAll(rs)) == rs && Rest(WireAll(rs)) == ""
  {
    if rs == [] {
      assert Parse("", 0) == Incomplete;
    } else {
      var first, rest := Wire(rs[0]), WireAll(rs[1..]);
      assert At(first + rest, 0, first);
      ReplyReadsBack(first + rest, 0, rs[0]);
      assert (first + rest)[|first|..] == rest;
      StreamOfReplies(rs[1..]);
      assert rs == [rs[0]] + rs[1..];
    }
  }

  /** Whatever replies the server writes and however the stream is cut and interleaved with sends:
      reply j resolves command j with its value, and each as soon as it is there. */
  lemma ChunkedRepliesArrive(rs: seq<Reply>, events: seq<Event>)
    requires Stream(events) == WireAll(rs)
    ensures var settled := Run(events).settled;
      && |settled| <= |rs| && |settled| <= |Sent(events)|
      && (forall j :: 0 <= j < |settled| ==> settled[j] == (Sent(events)[j], rs[j]))
      && (events != [] && events[|events| - 1].Data? ==> |settled| == |rs| || |settled| == |Sent(events)|)
  {
    StreamOfReplies(rs);
    RepliesInOrder(events);
  }
}
