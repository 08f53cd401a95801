/** The canonical text is JSON: a reader of RFC 8259 gets from it the value it was made from, with
    the keys of every object sorted. */
module CanonicalJsonReader {
  import opened Common
  import opened CanonicalJson
  import opened CanonicalJsonTheorems

  // ---------------------------------------------------------------------- the reader

  function HexOf(c: char): (d: Option<nat>)
    ensures d.Some? ==> d.value < 16
  {
    if '0' <= c <= '9' then Some(c as int - '0' as int)
    else if 'a' <= c <= 'f' then Some(10 + c as int - 'a' as int)
    else if 'A' <= c <= 'F' then Some(10 + c as int - 'A' as int)
    else None
  }

  /** Four hexadecimal digits; halves of surrogate pairs are not read. */
  function ReadHex(t: string): (r: Option<(char, string)>)
    ensures r.Some? ==> |r.value.1| < |t|
  {
    if |t| < 4 || HexOf(t[0]).None? || HexOf(t[1]).None? || HexOf(t[2]).None? || HexOf(t[3]).None? then None
    else
      var n := 4096 * HexOf(t[0]).value + 256 * HexOf(t[1]).value + 16 * HexOf(t[2]).value + HexOf(t[3]).value;
      if 0xD800 <= n < 0xE000 then None else Some((n as char, t[4..]))
  }

  /** One character inside a string (section 7): itself, or an escape. */
  function ReadChar(t: string): (r: Option<(char, string)>)
    ensures r.Some? ==> |r.value.1| < |t|
  {
    if t == "" || t[0] as int < 0x20 || t[0] == '"' then None
    else if t[0] != '\\' then Some((t[0], t[1..]))
    else if |t| < 2 then None
    else
      match t[1]
      case '"' => Some(('"', t[2..]))
      case '\\' => Some(('\\', t[2..]))
      case '/' => Some(('/', t[2..]))
      case 'b' => Some((8 as char, t[2..]))
      case 'f' => Some((12 as char, t[2..]))
      case 'n' => Some((10 as char, t[2..]))
      case 'r' => Some((13 as char, t[2..]))
      case 't' => Some((9 as char, t[2..]))
      case 'u' => ReadHex(t[2..])
      case _ => None
  }

  /** The rest of a string after its opening quote. */
  function ReadString(t: string): (r: Option<(string, string)>)
    ensures r.Some? ==> |r.value.1| < |t|
    decreases |t|
  {
    if t == "" then None
    else if t[0] == '"' then Some(("", t[1..]))
    else
      var first := ReadChar(t);
      if first.None? then None
      else
        var more := ReadString(first.value.1);
        if more.None? then None else Some(([first.value.0] + more.value.0, more.value.1))
  }

  /** The longest run of characters that occur in numbers (section 6). */
  function ReadNumber(t: string): (r: (string, string))
    ensures t == r.0 + r.1
    decreases |t|
  {
    if t == "" || !InNumber(t[0]) then ("", t)
    else var more := ReadNumber(t[1..]); ([t[0]] + more.0, more.1)
  }

  predicate StartsWith(t: string, word: string) {
    |word| <= |t| && t[..|word|] == word
  }

  /** A value at the front of a text without white space (section 3), and what follows it. */
  function ReadValue(t: string): (r: Option<(Json, string)>)
    ensures r.Some? ==> |r.value.1| < |t|
    decreases |t|, 0
  {
    if t == "" then None
    else if StartsWith(t, "null") then Some((JNull, t[4..]))
    else if StartsWith(t, "true") then Some((JBool(true), t[4..]))
    else if StartsWith(t, "false") then Some((JBool(false), t[5..]))
    else if t[0] == '"' then
      var s := ReadString(t[1..]);
      if s.None? then None else Some((JString(s.value.0), s.value.1))
    else if StartsNumber(t[0]) then
      var n := ReadNumber(t);
      if n.0 == "" then None else Some((JNumber(n.0), n.1))
    else if t[0] == '[' then
      if StartsWith(t, "[]") then Some((JArray([]), t[2..]))
      else
        var items := ReadItems(t[1..]);
        if items.None? then None else Some((JArray(items.value.0), items.value.1))
    else if t[0] == '{' then
      if StartsWith(t, "{}") then Some((JObject([]), t[2..]))
      else
        var members := ReadMembers(t[1..]);
        if members.None? then None else Some((JObject(members.value.0), members.value.1))
    else None
  }

  /** Values between commas, up to the bracket. */
  function ReadItems(t: string): (r: Option<(seq<Json>, string)>)
    ensures r.Some? ==> |r.value.1| < |t|
    decreases |t|, 1
  {
    var first := ReadValue(t);
    if first.None? || first.value.1 == "" then None
    else
      var rest := first.value.1;
      if rest[0] == ']' then Some(([first.value.0], rest[1..]))
      else if rest[0] != ',' then None
      else
        var more := ReadItems(rest[1..]);
        if more.None? then None else Some(([first.value.0] + more.value.0, more.value.1))
  }

  function ReadMember(t: string): (r: Option<(Field, string)>)
    ensures r.Some? ==> |r.value.1| < |t|
    decreases |t|, 1
  {
    if t == "" || t[0] != '"' then None
    else
      var key := ReadString(t[1..]);
      if key.None? || key.value.1 == "" || key.value.1[0] != ':' then None
      else
        var value := ReadValue(key.value.1[1..]);
        if value.None? then None else Some((Field(key.value.0, value.value.0), value.value.1))
  }

  /** Members between commas, up to the brace. */
  function ReadMembers(t: string): (r: Option<(seq<Field>, string)>)
    ensures r.Some? ==> |r.value.1| < |t|
    decreases |t|, 2
  {
    var first := ReadMember(t);
    if first.None? || first.value.1 == "" then None
    else
      var rest := first.value.1;
      if rest[0] == '}' then Some(([first.value.0], rest[1..]))
      else if rest[0] != ',' then None
      else
        var more := ReadMembers(rest[1..]);
        if more.None? then None else Some(([first.value.0] + more.value.0, more.value.1))
  }

  // -------------------------------------------------------------------- what it reads

  /** The value with the keys of every object in the order of the sort. */
  function Sorted(cmp: Comparator, v: Json): Json
    decreases Depth(v), 0, 0
  {
    match v
    case JArray(items) => JArray(SortedItems(cmp, items))
    case JObject(fields) =>
      var sorted := Sort(cmp, fields);
      SortedDepth(cmp, fields);
      JObject(SortedValues(cmp, sorted))
    case _ => v
  }

  function SortedItems(cmp: Comparator, items: seq<Json>): seq<Json>
    decreases ItemsDepth(items), 1, |items|
  {
    if items == [] then [] else [Sorted(cmp, items[0])] + SortedItems(cmp, items[1..])
  }

  function SortedValues(cmp: Comparator, fields: seq<Field>): seq<Field>
    decreases FieldsDepth(fields), 1, |fields|
  {
    if fields == [] then []
    else [Field(fields[0].key, Sorted(cmp, fields[0].value))] + SortedValues(cmp, fields[1..])
  }

  // ------------------------------------------------------------------------ strings

  lemma EscapeIsRead(c: char, x: string)
    ensures ReadChar(Escape(c) + x) == Some((c, x)) && Escape(c) != "" && Escape(c)[0] != '"'
  {
    var t := Escape(c) + x;
    assert t[|Escape(c)|..] == x;
    if c as int < 0x20 && c as int !in {8, 9, 10, 12, 13} {
      HexIsRead(c as int / 16);
      HexIsRead(c as int % 16);
      HexIsRead(0);
      assert t[2..][4..] == x;
    } else if |Escape(c)| == 2 {
      assert t[2..] == x;
    }
  }

  lemma HexIsRead(d: nat)
    requires d < 16
    ensures HexOf(HexDigit(d)) == Some(d)
  {
  }

  lemma FirstIsRead(a: string, r: string)
    requires a != ""
    ensures Closing(a, r) != "" && Closing(a, r)[0] != '"'
    ensures ReadChar(Closing(a, r)) == Some((a[0], Closing(a[1..], r)))
  {
    ClosingUnfolds(a, r);
    EscapeIsRead(a[0], Closing(a[1..], r));
    assert (Escape(a[0]) + Closing(a[1..], r))[0] == Escape(a[0])[0];
  }

  lemma CharacterThenString(t: string, c: char, rest: string, more: string, r: string)
    requires t != "" && t[0] != '"' && ReadChar(t) == Some((c, rest)) && ReadString(rest) == Some((more, r))
    ensures ReadString(t) == Some(([c] + more, r))
  {
  }

  lemma {:induction false} StringIsRead(a: string, r: string)
    ensures ReadString(Closing(a, r)) == Some((a, r))
    decreases |a|
  {
    if a == "" {
      assert Closing(a, r) == "\"" + r;
    } else {
      FirstIsRead(a, r);
      StringIsRead(a[1..], r);
      CharacterThenString(Closing(a, r), a[0], Closing(a[1..], r), a[1..], r);
      assert a == [a[0]] + a[1..];
    }
  }

  lemma {:induction false} NumberIsRead(token: string, r: string)
    requires forall i :: 0 <= i < |token| ==> InNumber(token[i])
    requires Ended(r)
    ensures ReadNumber(token + r) == (token, r)
  {
    if token == "" {
      assert token + r == r;
    } else {
      assert (token + r)[1..] == token[1..] + r;
      NumberIsRead(token[1..], r);
      assert token == [token[0]] + token[1..];
    }
  }

  lemma NumberValueIsRead(token: string, r: string)
    requires IsNumber(token) && Ended(r)
    ensures ReadValue(token + r) == Some((JNumber(token), r))
  {
    NumberIsRead(token, r);
    assert (token + r)[0] == token[0];
    NotAWord(token + r);
  }

  lemma StringValueIsRead(text: string, r: string)
    ensures ReadValue(Quote(text) + r) == Some((JString(text), r))
  {
    var t := Quote(text) + r;
    assert t[1..] == Closing(text, r) && t[0] == '"';
    StringIsRead(text, r);
    NotAWord(t);
  }

  lemma WordsAreRead(r: string)
    ensures ReadValue("null" + r) == Some((JNull, r))
    ensures ReadValue("true" + r) == Some((JBool(true), r))
    ensures ReadValue("false" + r) == Some((JBool(false), r))
  {
    assert ("null" + r)[..4] == "null" && ("null" + r)[4..] == r;
    assert ("true" + r)[..4] == "true" && ("true" + r)[4..] == r;
    assert ("false" + r)[..5] == "false" && ("false" + r)[5..] == r && ("false" + r)[..4] == "fals";
  }

  lemma ScalarIsRead(cmp: Comparator, v: Json, r: string)
    requires Plain(v) && Ended(r) && KindOf(v) < 4
    ensures ReadValue(StableStringify(cmp, v) + r) == Some((v, r))
  {
    match v
    case JNumber(token) => NumberValueIsRead(token, r);
    case JString(text) => StringValueIsRead(text, r);
    case _ => WordsAreRead(r);
  }

  lemma NotAWord(t: string)
    requires t != "" && t[0] !in "ntf"
    ensures !StartsWith(t, "null") && !StartsWith(t, "true") && !StartsWith(t, "false")
  {
    assert |t| >= 4 ==> t[..4][0] == t[0];
    assert |t| >= 5 ==> t[..5][0] == t[0];
  }

  // ------------------------------------------------------------------ the round trip

  /** The text of a value, whatever follows it in an array or an object, reads back as the value with
      its keys sorted. */
  lemma {:induction false} TextIsRead(cmp: Comparator, v: Json, r: string)
    requires Plain(v) && Ended(r)
    ensures ReadValue(StableStringify(cmp, v) + r) == Some((Sorted(cmp, v), r))
    decreases Depth(v), 0, 0
  {
    match v
    case JArray(items) =>
      ArrayText(cmp, items, r);
      ArrayOpens(cmp, items, r);
      if items != [] {
        ItemsAreRead(cmp, items, r);
      }
    case JObject(fields) =>
      var sorted := Sort(cmp, fields);
      ObjectText(cmp, fields, r);
      SortedDepth(cmp, fields);
      SortedPlain(cmp, fields);
      ObjectOpens(cmp, sorted, r);
      if sorted != [] {
        MembersAreRead(cmp, sorted, r);
      }
    case _ => ScalarIsRead(cmp, v, r);
  }

  lemma ArrayOpens(cmp: Comparator, items: seq<Json>, r: string)
    requires items != [] ==> Plain(items[0])
    ensures var t := "[" + ItemsText(cmp, items, r);
      ReadValue(t) == if items == [] then Some((JArray([]), r))
                      else
                        var read := ReadItems(ItemsText(cmp, items, r));
                        if read.None? then None else Some((JArray(read.value.0), read.value.1))
  {
    var inner := ItemsText(cmp, items, r);
    var t := "[" + inner;
    ItemsStep(cmp, items, r);
    NotAWord(t);
    assert t[1..] == inner && t[0] == '[';
    if items == [] {
      assert t[..2] == "[]" && t[2..] == r;
    } else {
      assert t[..2][1] == inner[0];
    }
  }

  lemma ObjectOpens(cmp: Comparator, fields: seq<Field>, r: string)
    ensures var t := "{" + MembersText(cmp, fields, r);
      ReadValue(t) == if fields == [] then Some((JObject([]), r))
                      else
                        var read := ReadMembers(MembersText(cmp, fields, r));
                        if read.None? then None else Some((JObject(read.value.0), read.value.1))
  {
    var inner := MembersText(cmp, fields, r);
    var t := "{" + inner;
    MembersStep(cmp, fields, r);
    NotAWord(t);
    assert t[1..] == inner && t[0] == '{';
    if fields == [] {
      assert t[..2] == "{}" && t[2..] == r;
    } else {
      assert t[..2][1] == inner[0];
    }
  }

  lemma {:induction false} ItemsAreRead(cmp: Comparator, xs: seq<Json>, r: string)
    requires xs != [] && forall i :: 0 <= i < |xs| ==> Plain(xs[i])
    ensures ReadItems(ItemsText(cmp, xs, r)) == Some((SortedItems(cmp, xs), r))
    decreases ItemsDepth(xs), 1, |xs|
  {
    var after := AfterFirstItem(cmp, xs, r);
    ItemsStep(cmp, xs, r);
    TextIsRead(cmp, xs[0], after);
    if |xs| == 1 {
      assert after[0] == ']' && after[1..] == r;
      assert SortedItems(cmp, xs) == [Sorted(cmp, xs[0])];
    } else {
      assert after[0] == ',';
      ItemsAreRead(cmp, xs[1..], r);
    }
  }

  lemma {:induction false} MemberIsRead(cmp: Comparator, f: Field, r: string)
    requires Plain(f.value) && Ended(r)
    ensures ReadMember(Member(cmp, f) + r) == Some((Field(f.key, Sorted(cmp, f.value)), r))
    decreases Depth(f.value), 1, 0
  {
    var rest := StableStringify(cmp, f.value) + r;
    var t := Member(cmp, f) + r;
    MemberStep(cmp, f, r);
    assert t[0] == '"';
    StringIsRead(f.key, ":" + rest);
    assert (":" + rest)[1..] == rest;
    TextIsRead(cmp, f.value, r);
  }

  lemma {:induction false} MembersAreRead(cmp: Comparator, xs: seq<Field>, r: string)
    requires xs != [] && AllPlain(xs)
    ensures ReadMembers(MembersText(cmp, xs, r)) == Some((SortedValues(cmp, xs), r))
    decreases FieldsDepth(xs), 2, |xs|
  {
    var after := AfterFirstMember(cmp, xs, r);
    MembersStep(cmp, xs, r);
    MemberIsRead(cmp, xs[0], after);
    if |xs| == 1 {
      assert after[0] == '}' && after[1..] == r;
      assert SortedValues(cmp, xs) == [Field(xs[0].key, Sorted(cmp, xs[0].value))];
    } else {
      assert after[0] == ',';
      MembersAreRead(cmp, xs[1..], r);
    }
  }

  /** The keys of every object stand in order. */
  ghost predicate KeysInOrder(cmp: Comparator, v: Json)
    decreases Depth(v), 0
  {
    match v
    case JArray(items) => forall i :: 0 <= i < |items| ==> (ItemDepth(items, i); KeysInOrder(cmp, items[i]))
    case JObject(fields) =>
      && Ordered(cmp, fields)
      && forall f :: f in fields ==> (FieldDepth(fields, f); KeysInOrder(cmp, f.value))
    case _ => true
  }

  lemma {:induction false} SortedIs(cmp: Comparator, v: Json)
    requires Consistent(cmp)
    ensures Alike(v, Sorted(cmp, v)) && KeysInOrder(cmp, Sorted(cmp, v))
    decreases Depth(v), 0, 0
  {
    match v
    case JArray(items) => SortedItemsAre(cmp, items);
    case JObject(fields) =>
      var sorted := Sort(cmp, fields);
      SortedDepth(cmp, fields);
      SortedFields(cmp, fields);
      SortOrdered(cmp, fields);
      SortedValuesAre(cmp, sorted);
      var result := SortedValues(cmp, sorted);
      forall f | f in fields ensures Has(result, f) {
        var i := IndexIn(sorted, f);
        assert result[i] in result;
      }
      forall f | f in result ensures KeysInOrder(cmp, f.value) {
        var i := IndexIn(result, f);
      }
    case _ =>
  }

  lemma {:induction false} SortedItemsAre(cmp: Comparator, items: seq<Json>)
    requires Consistent(cmp)
    ensures |SortedItems(cmp, items)| == |items|
    ensures forall i :: 0 <= i < |items| ==>
              Alike(items[i], SortedItems(cmp, items)[i]) && KeysInOrder(cmp, SortedItems(cmp, items)[i])
    decreases ItemsDepth(items), 1, |items|
  {
    if items != [] {
      SortedIs(cmp, items[0]);
      SortedItemsAre(cmp, items[1..]);
    }
  }

  lemma {:induction false} SortedValuesAre(cmp: Comparator, fields: seq<Field>)
    requires Consistent(cmp)
    ensures var result := SortedValues(cmp, fields);
      && |result| == |fields|
      && forall i :: 0 <= i < |fields| ==>
           && result[i].key == fields[i].key
           && Alike(fields[i].value, result[i].value) && KeysInOrder(cmp, result[i].value)
    decreases FieldsDepth(fields), 1, |fields|
  {
    if fields != [] {
      SortedIs(cmp, fields[0].value);
      SortedValuesAre(cmp, fields[1..]);
    }
  }

  /** The hashed text is JSON: read back it is the request with the keys of every object in the
      comparator's order, with nothing left over. */
  lemma CanonicalTextIsJson(cmp: Comparator, v: Json)
    requires Consistent(cmp) && Plain(v)
    ensures var read := ReadValue(StableStringify(cmp, v));
      && read.Some? && read.value.1 == ""
      && Alike(v, read.value.0) && KeysInOrder(cmp, read.value.0)
  {
    TextIsRead(cmp, v, "");
    assert StableStringify(cmp, v) + "" == StableStringify(cmp, v);
    SortedIs(cmp, v);
  }
}
