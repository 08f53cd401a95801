/** `stableStringify` of app/gateway-service/src/modules/orders/orders.service.ts, whose text
    is hashed to tell a repeated request from a different one with the same key. */
module CanonicalJson {
  datatype Field = Field(key: string, value: Json)

  /** A plain value; a number is the text JavaScript prints for it. */
  datatype Json =
    | JNull
    | JBool(b: bool)
    | JNumber(token: string)
    | JString(text: string)
    | JArray(items: seq<Json>)
    | JObject(fields: seq<Field>)

  /** `left.localeCompare(right)`: negative, zero or positive. */
  type Comparator = (string, string) -> int

  /** What Array.prototype.sort demands of a comparator. */
  ghost predicate Consistent(cmp: Comparator) {
    Signed(cmp) && forall a, b, c :: cmp(a, b) <= 0 && cmp(b, c) <= 0 ==> cmp(a, c) <= 0
  }

  ghost predicate Signed(cmp: Comparator) {
    forall a, b :: cmp(a, b) < 0 <==> cmp(b, a) > 0
  }

  // ------------------------------------------------------------------------- depth

  function Max(a: nat, b: nat): nat { if a < b then b else a }

  function Depth(v: Json): nat {
    match v
    case JArray(items) => 1 + ItemsDepth(items)
    case JObject(fields) => 1 + FieldsDepth(fields)
    case _ => 0
  }

  function ItemsDepth(items: seq<Json>): nat {
    if items == [] then 0 else Max(Depth(items[0]), ItemsDepth(items[1..]))
  }

  function FieldsDepth(fields: seq<Field>): nat {
    if fields == [] then 0 else Max(Depth(fields[0].value), FieldsDepth(fields[1..]))
  }

  lemma {:induction false} FieldsDepthBound(fields: seq<Field>, others: seq<Field>)
    requires forall f :: f in others ==> f in fields
    ensures FieldsDepth(others) <= FieldsDepth(fields)
  {
    if others != [] {
      FieldDepth(fields, others[0]);
      FieldsDepthBound(fields, others[1..]);
    }
  }

  lemma {:induction false} FieldDepth(fields: seq<Field>, f: Field)
    requires f in fields
    ensures Depth(f.value) <= FieldsDepth(fields)
  {
    if f != fields[0] {
      FieldDepth(fields[1..], f);
    }
  }

  // --------------------------------------------------------------------- stable sort

  /** Puts `f` behind every field that does not come after it. */
  function Insert(cmp: Comparator, sorted: seq<Field>, f: Field): seq<Field> {
    if sorted == [] then [f]
    else
      var init, last := sorted[..|sorted| - 1], sorted[|sorted| - 1];
      if cmp(last.key, f.key) <= 0 then sorted + [f] else Insert(cmp, init, f) + [last]
  }

  /** The stable sort by key. */
  function Sort(cmp: Comparator, fields: seq<Field>): seq<Field> {
    if fields == [] then []
    else Insert(cmp, Sort(cmp, fields[..|fields| - 1]), fields[|fields| - 1])
  }

  lemma {:induction false} InsertPermutes(cmp: Comparator, s: seq<Field>, f: Field)
    ensures multiset(Insert(cmp, s, f)) == multiset(s) + multiset{f}
  {
    if s != [] {
      var init, last := s[..|s| - 1], s[|s| - 1];
      assert s == init + [last];
      if cmp(last.key, f.key) > 0 {
        InsertPermutes(cmp, init, f);
      }
    }
  }

  lemma {:induction false} SortPermutes(cmp: Comparator, fields: seq<Field>)
    ensures multiset(Sort(cmp, fields)) == multiset(fields)
  {
    if fields != [] {
      var init, last := fields[..|fields| - 1], fields[|fields| - 1];
      assert fields == init + [last];
      SortPermutes(cmp, init);
      InsertPermutes(cmp, Sort(cmp, init), last);
    }
  }

  lemma SortedFields(cmp: Comparator, fields: seq<Field>)
    ensures |Sort(cmp, fields)| == |fields|
    ensures forall f :: f in Sort(cmp, fields) <==> f in fields
  {
    SortPermutes(cmp, fields);
    SameElements(Sort(cmp, fields), fields);
  }

  lemma {:induction false} InsertMembers(cmp: Comparator, s: seq<Field>, f: Field, g: Field)
    requires g in Insert(cmp, s, f)
    ensures g in s || g == f
  {
    InsertPermutes(cmp, s, f);
    assert g in multiset(Insert(cmp, s, f));
  }

  ghost predicate Ordered(cmp: Comparator, s: seq<Field>) {
    forall i, j :: 0 <= i < j < |s| ==> cmp(s[i].key, s[j].key) <= 0
  }

  lemma SameElements(a: seq<Field>, b: seq<Field>)
    requires multiset(a) == multiset(b)
    ensures |a| == |b|
    ensures forall f :: f in a <==> f in b
  {
    assert |multiset(a)| == |multiset(b)|;
    forall f ensures f in a <==> f in b {
      assert f in a <==> f in multiset(a);
      assert f in b <==> f in multiset(b);
    }
  }

  lemma {:induction false} InsertOrdered(cmp: Comparator, s: seq<Field>, f: Field)
    requires Consistent(cmp) && Ordered(cmp, s)
    ensures Ordered(cmp, Insert(cmp, s, f))
  {
    if s != [] {
      var init, last := s[..|s| - 1], s[|s| - 1];
      if cmp(last.key, f.key) <= 0 {
        forall i | 0 <= i < |s| ensures cmp(s[i].key, f.key) <= 0 {
          assert i < |s| - 1 ==> cmp(s[i].key, last.key) <= 0;
        }
      } else {
        InsertOrdered(cmp, init, f);
        forall g | g in Insert(cmp, init, f) ensures cmp(g.key, last.key) <= 0 {
          InsertMembers(cmp, init, f, g);
        }
      }
    }
  }

  lemma {:induction false} SortOrdered(cmp: Comparator, fields: seq<Field>)
    requires Consistent(cmp)
    ensures Ordered(cmp, Sort(cmp, fields))
  {
    if fields != [] {
      SortOrdered(cmp, fields[..|fields| - 1]);
      InsertOrdered(cmp, Sort(cmp, fields[..|fields| - 1]), fields[|fields| - 1]);
    }
  }

  // ------------------------------------------------------------------------ printing

  function HexDigit(d: nat): char
    requires d < 16
  {
    "0123456789abcdef"[d]
  }

  /** Section 7 of RFC 8259, with the short escapes JSON.stringify uses. */
  function Escape(c: char): string {
    if c == '"' then "\\\""
    else if c == '\\' then "\\\\"
    else if c as int == 8 then "\\b"
    else if c as int == 9 then "\\t"
    else if c as int == 10 then "\\n"
    else if c as int == 12 then "\\f"
    else if c as int == 13 then "\\r"
    else if c as int < 0x20 then "\\u00" + [HexDigit(c as int / 16), HexDigit(c as int % 16)]
    else [c]
  }

  function EscapeAll(s: string): string {
    if s == "" then "" else Escape(s[0]) + EscapeAll(s[1..])
  }

  function Quote(s: string): string {
    "\"" + EscapeAll(s) + "\""
  }

  function StableStringify(cmp: Comparator, v: Json): string
    decreases Depth(v), 0, 0
  {
    match v
    case JNull => "null"
    case JBool(b) => if b then "true" else "false"
    case JNumber(token) => token
    case JString(text) => Quote(text)
    case JArray(items) => "[" + JoinedItems(cmp, items) + "]"
    case JObject(fields) =>
      var sorted := Sort(cmp, fields);
      SortedFields(cmp, fields);
      FieldsDepthBound(fields, sorted);
      "{" + JoinedMembers(cmp, sorted) + "}"
  }

  /** The items, joined by commas. */
  function JoinedItems(cmp: Comparator, items: seq<Json>): string
    decreases ItemsDepth(items), 1, |items|
  {
    if items == [] then ""
    else if |items| == 1 then StableStringify(cmp, items[0])
    else StableStringify(cmp, items[0]) + "," + JoinedItems(cmp, items[1..])
  }

  function Member(cmp: Comparator, f: Field): string
    decreases Depth(f.value), 1, 0
  {
    Quote(f.key) + ":" + StableStringify(cmp, f.value)
  }

  function JoinedMembers(cmp: Comparator, fields: seq<Field>): string
    decreases FieldsDepth(fields), 2, |fields|
  {
    if fields == [] then ""
    else if |fields| == 1 then Member(cmp, fields[0])
    else Member(cmp, fields[0]) + "," + JoinedMembers(cmp, fields[1..])
  }

  // ------------------------------------------------------------- well-formed and alike

  predicate StartsNumber(c: char) {
    c == '-' || '0' <= c <= '9'
  }

  predicate InNumber(c: char) {
    StartsNumber(c) || c == '+' || c == '.' || c == 'e' || c == 'E'
  }

  predicate IsNumber(token: string) {
    && token != "" && StartsNumber(token[0])
    && forall i :: 0 <= i < |token| ==> InNumber(token[i])
  }

  ghost predicate DistinctKeys(fields: seq<Field>) {
    forall i, j :: 0 <= i < j < |fields| ==> fields[i].key != fields[j].key
  }

  /** Numbers are number texts and no object repeats a key. */
  ghost predicate Plain(v: Json)
    decreases Depth(v), 0
  {
    match v
    case JNumber(token) => IsNumber(token)
    case JArray(items) => forall i :: 0 <= i < |items| ==> (ItemDepth(items, i); Plain(items[i]))
    case JObject(fields) =>
      && DistinctKeys(fields)
      && forall f :: f in fields ==> (FieldDepth(fields, f); Plain(f.value))
    case _ => true
  }

  lemma {:induction false} ItemDepth(items: seq<Json>, i: nat)
    requires i < |items|
    ensures Depth(items[i]) <= ItemsDepth(items)
  {
    if i > 0 {
      ItemDepth(items[1..], i - 1);
    }
  }

  /** The comparator tells any two keys of one object apart. */
  ghost predicate Separated(cmp: Comparator, v: Json)
    decreases Depth(v), 0
  {
    match v
    case JArray(items) => forall i :: 0 <= i < |items| ==> (ItemDepth(items, i); Separated(cmp, items[i]))
    case JObject(fields) =>
      && KeysSeparated(cmp, fields)
      && forall f :: f in fields ==> (FieldDepth(fields, f); Separated(cmp, f.value))
    case _ => true
  }

  ghost predicate KeysSeparated(cmp: Comparator, fields: seq<Field>) {
    forall i, j :: 0 <= i < j < |fields| ==> cmp(fields[i].key, fields[j].key) != 0
  }

  /** Equal up to the order of object keys. */
  ghost predicate Alike(v: Json, w: Json)
    decreases Depth(v), 0
  {
    match v
    case JArray(items) =>
      && w.JArray? && |w.items| == |items|
      && forall i :: 0 <= i < |items| ==> (ItemDepth(items, i); Alike(items[i], w.items[i]))
    case JObject(fields) =>
      && w.JObject? && |w.fields| == |fields|
      && forall f :: f in fields ==>
           (FieldDepth(fields, f); exists g :: g in w.fields && g.key == f.key && Alike(f.value, g.value))
    case _ => v == w
  }
}
