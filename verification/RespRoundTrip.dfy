/** `encodeRedisCommand` against the reply parser: the encoding of a command is the array
    reply of its parts (RESP2, "Bulk strings" and "Arrays"). */
module RespRoundTrip {
  import opened Common
  import opened Resp
  import Decimal

  /** Bytes of a character in UTF-8. */
  function CharBytes(c: char): nat {
    if c as int < 0x80 then 1 else if c as int < 0x800 then 2 else if c as int < 0x1_0000 then 3 else 4
  }

  function ByteLength(s: string): nat {
    if s == "" then 0 else CharBytes(s[0]) + ByteLength(s[1..])
  }

  ghost predicate Ascii(s: string) {
    forall i :: 0 <= i < |s| ==> s[i] as int < 0x80
  }

  function Join(pieces: seq<string>, separator: string): string {
    if pieces == [] then ""
    else if |pieces| == 1 then pieces[0]
    else pieces[0] + separator + Join(pieces[1..], separator)
  }

  function Pieces(parts: seq<string>): seq<string> {
    if parts == [] then [] else ["$" + Decimal.Print(ByteLength(parts[0])), parts[0]] + Pieces(parts[1..])
  }

  function EncodeRedisCommand(parts: seq<string>): string {
    Join(["*" + Decimal.Print(|parts|)] + Pieces(parts), CRLF) + CRLF
  }

  // ------------------------------------------------------- the shape of an encoding

  function Header(kind: char, n: nat): string {
    [kind] + Decimal.Print(n) + CRLF
  }

  function Bulk(part: string): string {
    Header('$', ByteLength(part)) + part + CRLF
  }

  function Bulks(parts: seq<string>): string {
    if parts == [] then "" else Bulk(parts[0]) + Bulks(parts[1..])
  }

  lemma {:induction false} PiecesJoined(first: string, parts: seq<string>)
    ensures Join([first] + Pieces(parts), CRLF) + CRLF == first + CRLF + Bulks(parts)
    decreases |parts|
  {
    var pieces := [first] + Pieces(parts);
    if parts == [] {
      assert pieces == [first];
    } else {
      var length := "$" + Decimal.Print(ByteLength(parts[0]));
      assert pieces[1..] == [length] + ([parts[0]] + Pieces(parts[1..]));
      assert pieces[1..][1..] == [parts[0]] + Pieces(parts[1..]);
      PiecesJoined(parts[0], parts[1..]);
      calc {
        Join(pieces, CRLF) + CRLF;
        first + CRLF + Join(pieces[1..], CRLF) + CRLF;
        first + CRLF + (length + CRLF + (Join(pieces[1..][1..], CRLF) + CRLF));
        first + CRLF + (length + CRLF + (parts[0] + CRLF + Bulks(parts[1..])));
        first + CRLF + (Bulk(parts[0]) + Bulks(parts[1..]));
      }
    }
  }

  lemma EncodingIs(parts: seq<string>)
    ensures EncodeRedisCommand(parts) == Header('*', |parts|) + Bulks(parts)
  {
    PiecesJoined("*" + Decimal.Print(|parts|), parts);
  }

  // ----------------------------------------------------------------- parsing it back

  lemma {:induction false} LineEndAt(input: string, offset: nat, e: nat)
    requires offset <= e && e + 2 <= |input|
    requires forall i :: offset <= i < e ==> input[i] != '\r'
    requires input[e] == '\r' && input[e + 1] == '\n'
    ensures LineEnd(input, offset) == Some(e)
    decreases e - offset
  {
    if offset < e {
      LineEndAt(input, offset + 1, e);
    }
  }

  /** The text `s` stands in the input at `offset`. */
  ghost predicate At(input: string, offset: nat, s: string) {
    offset + |s| <= |input| && input[offset..offset + |s|] == s
  }

  lemma AtSplits(input: string, offset: nat, a: string, b: string)
    requires At(input, offset, a + b)
    ensures At(input, offset, a) && At(input, offset + |a|, b)
  {
    var t := input[offset..offset + |a + b|];
    assert t[..|a|] == a && t[|a|..] == b;
    assert input[offset..offset + |a|] == t[..|a|];
    assert input[offset + |a|..offset + |a| + |b|] == t[|a|..];
  }

  lemma HeaderParses(input: string, offset: nat, kind: char, n: nat)
    requires At(input, offset, Header(kind, n)) && kind in "*$"
    ensures var e := offset + 1 + |Decimal.Print(n)|;
      LineEnd(input, offset) == Some(e) && NumberOf(input[offset + 1..e]) == Some(n)
      && offset + |Header(kind, n)| == e + 2
  {
    Decimal.ParsePrint(n);
    var text := Decimal.Print(n);
    var e := offset + 1 + |text|;
    AtSplits(input, offset, [kind] + text, CRLF);
    AtSplits(input, offset, [kind], text);
    assert input[offset] == [kind][0];
    forall i | offset <= i < e ensures input[i] != '\r' {
      if i > offset {
        assert input[i] == input[offset + 1..e][i - offset - 1];
      }
    }
    assert input[e] == input[e..e + 2][0] && input[e + 1] == input[e..e + 2][1];
    LineEndAt(input, offset, e);
  }

  lemma {:induction false} AsciiLength(s: string)
    ensures ByteLength(s) >= |s|
    ensures ByteLength(s) == |s| <==> Ascii(s)
  {
    if s != "" {
      AsciiLength(s[1..]);
      assert Ascii(s) <==> s[0] as int < 0x80 && Ascii(s[1..]) by {
        assert forall i :: 0 <= i < |s| - 1 ==> s[i + 1] == s[1..][i];
        if s[0] as int < 0x80 && Ascii(s[1..]) {
          forall i | 0 <= i < |s| ensures s[i] as int < 0x80 {
            assert i > 0 ==> s[i] == s[1..][i - 1];
          }
        }
      }
    }
  }

  /** What the parser makes of a length line. */
  lemma BulkHeaderParses(input: string, offset: nat, n: nat)
    requires At(input, offset, Header('$', n))
    ensures var start := offset + |Header('$', n)|;
      Parse(input, offset) ==
      if |input| < start + n + 2 then Incomplete else Done(Text(input[start..start + n]), start + n + 2)
  {
    HeaderParses(input, offset, '$', n);
    assert input[offset] == input[offset..offset + |Header('$', n)|][0] == '$';
  }

  /** A part is read back exactly if it is ASCII: the length counts bytes, the parser characters. */
  lemma BulkParses(input: string, offset: nat, part: string)
    requires At(input, offset, Bulk(part))
    ensures Ascii(part) ==> Parse(input, offset) == Done(Text(part), offset + |Bulk(part)|)
    ensures !Ascii(part) ==>
              var parsed := Parse(input, offset);
              parsed.Incomplete? || (parsed.Done? && parsed.reply != Text(part))
  {
    var n := ByteLength(part);
    var start := offset + |Header('$', n)|;
    assert At(input, offset, Header('$', n)) && At(input, start, part + CRLF) by {
      assert Header('$', n) + (part + CRLF) == Bulk(part);
      AtSplits(input, offset, Header('$', n), part + CRLF);
    }
    AtSplits(input, start, part, CRLF);
    BulkHeaderParses(input, offset, n);
    AsciiLength(part);
    if |input| >= start + n + 2 {
      assert |input[start..start + n]| == n;
    }
  }

  function Texts(parts: seq<string>): (r: seq<Reply>)
    ensures |r| == |parts|
    ensures forall i :: 0 <= i < |parts| ==> r[i] == Text(parts[i])
  {
    seq(|parts|, i requires 0 <= i < |parts| => Text(parts[i]))
  }

  lemma {:induction false} ItemsKept(input: string, count: int, offset: nat, items: seq<Reply>)
    requires offset <= |input|
    ensures var r := ParseItems(input, count, offset, items); r.Done? ==> r.reply.Items? && items <= r.reply.items
    decreases |input| - offset, 1
  {
    if count > 0 {
      var first := Parse(input, offset);
      if first.Done? {
        ItemsKept(input, count - 1, first.next, items + [first.reply]);
      }
    }
  }

  ghost predicate AllAscii(parts: seq<string>) {
    forall i :: 0 <= i < |parts| ==> Ascii(parts[i])
  }

  lemma AllAsciiFrom(parts: seq<string>)
    requires parts != []
    ensures AllAscii(parts) <==> Ascii(parts[0]) && AllAscii(parts[1..])
  {
    if Ascii(parts[0]) && AllAscii(parts[1..]) {
      forall i | 0 <= i < |parts| ensures Ascii(parts[i]) {
        assert i > 0 ==> parts[i] == parts[1..][i - 1];
      }
    }
  }

  /** Once a part was misread, the items differ. */
  lemma MisreadStays(input: string, offset: nat, parts: seq<string>, items: seq<Reply>)
    requires parts != [] && offset <= |input|
    requires Parse(input, offset).Done? && Parse(input, offset).reply != Text(parts[0])
    ensures var r := ParseItems(input, |parts|, offset, items); r.Done? ==> r.reply != Items(items + Texts(parts))
  {
    var first := Parse(input, offset);
    var r := ParseItems(input, |parts| - 1, first.next, items + [first.reply]);
    ItemsKept(input, |parts| - 1, first.next, items + [first.reply]);
    assert (items + Texts(parts))[|items|] == Text(parts[0]);
    if r.Done? {
      assert (items + [first.reply])[|items|] == first.reply;
      assert r.reply.items[|items|] == first.reply;
    }
  }

  lemma TextsFrom(parts: seq<string>, items: seq<Reply>)
    requires parts != []
    ensures items + Texts(parts) == (items + [Text(parts[0])]) + Texts(parts[1..])
  {
    assert Texts(parts) == [Text(parts[0])] + Texts(parts[1..]);
  }

  /** What is expected of the items parsed from the bulk strings of `parts`. */
  ghost predicate ReadsBack(r: Parsed, parts: seq<string>, items: seq<Reply>, next: nat) {
    if AllAscii(parts) then r == Done(Items(items + Texts(parts)), next)
    else r.Done? ==> r.reply != Items(items + Texts(parts))
  }

  lemma ReadsBackFrom(r: Parsed, parts: seq<string>, items: seq<Reply>, next: nat)
    requires parts != [] && Ascii(parts[0]) && ReadsBack(r, parts[1..], items + [Text(parts[0])], next)
    ensures ReadsBack(r, parts, items, next)
  {
    AllAsciiFrom(parts);
    TextsFrom(parts, items);
  }

  lemma BulksSplit(input: string, offset: nat, parts: seq<string>)
    requires parts != [] && At(input, offset, Bulks(parts))
    ensures At(input, offset, Bulk(parts[0])) && At(input, offset + |Bulk(parts[0])|, Bulks(parts[1..]))
    ensures |Bulks(parts)| == |Bulk(parts[0])| + |Bulks(parts[1..])|
  {
    AtSplits(input, offset, Bulk(parts[0]), Bulks(parts[1..]));
  }

  lemma ItemsStep(input: string, count: int, offset: nat, next: nat, reply: Reply, items: seq<Reply>)
    requires offset <= |input| && count > 0 && Parse(input, offset) == Done(reply, next)
    ensures ParseItems(input, count, offset, items) == ParseItems(input, count - 1, next, items + [reply])
  {
  }

  lemma {:induction false} BulksParse(input: string, offset: nat, parts: seq<string>, items: seq<Reply>)
    requires At(input, offset, Bulks(parts))
    ensures ReadsBack(ParseItems(input, |parts|, offset, items), parts, items, offset + |Bulks(parts)|)
    decreases |parts|
  {
    if parts == [] {
      assert items + Texts(parts) == items;
    } else {
      var part, rest := parts[0], parts[1..];
      BulksSplit(input, offset, parts);
      BulkParses(input, offset, part);
      if Ascii(part) {
        var next := offset + |Bulk(part)|;
        BulksParse(input, next, rest, items + [Text(part)]);
        ItemsStep(input, |parts|, offset, next, Text(part), items);
        ReadsBackFrom(ParseItems(input, |parts|, offset, items), parts, items, offset + |Bulks(parts)|);
      } else {
        AllAsciiFrom(parts);
        if Parse(input, offset).Done? {
          MisreadStays(input, offset, parts, items);
        }
      }
    }
  }

  lemma ArrayHeaderParses(input: string, n: nat)
    requires At(input, 0, Header('*', n))
    ensures Parse(input, 0) == ParseItems(input, n, |Header('*', n)|, [])
  {
    HeaderParses(input, 0, '*', n);
    assert input[0] == input[0..|Header('*', n)|][0] == '*';
  }

  /** A command reads back as the array of its parts exactly when all of them are ASCII. */
  lemma RoundTripExactlyForAscii(parts: seq<string>)
    ensures var input := EncodeRedisCommand(parts);
      Parse(input, 0) == Done(Items(Texts(parts)), |input|) <==> AllAscii(parts)
  {
    var input, header := EncodeRedisCommand(parts), Header('*', |parts|);
    EncodingIs(parts);
    assert At(input, 0, header + Bulks(parts));
    AtSplits(input, 0, header, Bulks(parts));
    ArrayHeaderParses(input, |parts|);
    BulksParse(input, |header|, parts, []);
    assert [] + Texts(parts) == Texts(parts);
  }

  function Encodings(commands: seq<seq<string>>): string {
    if commands == [] then "" else EncodeRedisCommand(commands[0]) + Encodings(commands[1..])
  }

  lemma {:induction false} StreamOfCommands(commands: seq<seq<string>>)
    requires forall i :: 0 <= i < |commands| ==> AllAscii(commands[i])
    ensures Rest(Encodings(commands)) == "" && |Replies(Encodings(commands))| == |commands|
    ensures forall i :: 0 <= i < |commands| ==> Replies(Encodings(commands))[i] == Items(Texts(commands[i]))
  {
    if commands != [] {
      var first, rest := EncodeRedisCommand(commands[0]), Encodings(commands[1..]);
      RoundTripExactlyForAscii(commands[0]);
      ParseStable(first, rest, 0);
      assert (first + rest)[|first|..] == rest;
      StreamOfCommands(commands[1..]);
    }
  }

  /** A stream of ASCII commands, cut into chunks in any way, resolves the pending commands
      in order with exactly those part lists. */
  lemma ChunkedStreamDecodes(commands: seq<seq<string>>, events: seq<Event>)
    requires forall i :: 0 <= i < |commands| ==> AllAscii(commands[i])
    requires Stream(events) == Encodings(commands)
    ensures var settled := Run(events).settled;
      && |settled| <= |commands| && |settled| <= |Sent(events)|
      && (forall j :: 0 <= j < |settled| ==> settled[j] == (Sent(events)[j], Items(Texts(commands[j]))))
      && (events != [] && events[|events| - 1].Data? && |Sent(events)| == |commands| ==> |settled| == |commands|)
  {
    StreamOfCommands(commands);
    RepliesInOrder(events);
  }
}
